/**
 * The ClubNft contract as its unit tests (test/unit/club.test.js) pin it down:
 * a fee-gated `requestNft` that records who asked for a random word, and the
 * oracle's `fulfillRandomWords` callback that turns the word into a breed and
 * mints the next token.
 *
 * The Chainlink VRF coordinator is not modelled: the request id it returns and
 * the random words it delivers are parameters.
 */
module ClubNftContract {
  import opened Wrappers
  import opened BreedSelector
  import opened TokenUris

  type Address = nat

  datatype ClubError =
    | NeedMoreETHSent        // `ClubNft__NeedMoreETHSent`
    | ArrayIndexOutOfBounds  // reading past the end of the token-URI array
    | InvalidTokenId         // `tokenURI` of a token that was never minted

  datatype Event =
    | NftRequested(requestId: nat, requester: Address)
    | NftMinted(tokenId: nat, breed: nat, minter: Address)

  datatype Token = Token(owner: Address, breed: nat, tokenUri: string)

  class ClubNft {
    const mintFee: nat
    const clubTokenUris: seq<string>
    const chanceArray: seq<nat>
    var initialized: bool
    var tokenCounter: nat
    var requestIdToSender: map<nat, Address>
    /** The minted tokens; token `id` is `tokens[id]`. */
    var tokens: seq<Token>
    /** The events emitted so far, oldest first. */
    var events: seq<Event>

    ghost predicate Valid()
      reads this
    {
      && initialized
      && ChanceTable(chanceArray)
      && |clubTokenUris| > 0
      && tokenCounter == |tokens|
      && forall id :: 0 <= id < |tokens| ==>
           tokens[id].breed < |chanceArray| && tokens[id].tokenUri == clubTokenUris[id % |clubTokenUris|]
    }

    constructor (clubTokenUris: seq<string>, mintFee: nat, chanceArray: seq<nat>)
      requires |clubTokenUris| > 0 && ChanceTable(chanceArray)
      ensures Valid() && initialized
      ensures this.clubTokenUris == clubTokenUris && this.mintFee == mintFee && this.chanceArray == chanceArray
      ensures tokenCounter == 0 && tokens == [] && requestIdToSender == map[] && events == []
    {
      this.clubTokenUris := clubTokenUris;
      this.mintFee := mintFee;
      this.chanceArray := chanceArray;
      tokenCounter := 0;
      tokens := [];
      requestIdToSender := map[];
      events := [];
      initialized := true;
    }

    /** `requestNft` goes ahead with a payment of `value`. */
    predicate Accepts(value: nat) {
      mintFee <= value
    }

    /** The fee reported is the least payment `requestNft` accepts. */
    function GetMintFee(): (fee: nat)
      ensures Accepts(fee) && forall value :: Accepts(value) <==> fee <= value
    {
      mintFee
    }

    /** Once constructed, the contract reports itself initialized. */
    function GetInitialized(): (isInitialized: bool)
      reads this
      requires Valid()
      ensures isInitialized
    {
      initialized
    }

    /** The counter is the number of tokens minted so far, and the next token id. */
    function GetTokenCounter(): (counter: nat)
      reads this
      requires Valid()
      ensures counter == |tokens|
      ensures TokenUri(counter).Failure? && (counter > 0 ==> TokenUri(counter - 1).Success?)
    {
      tokenCounter
    }

    function GetClubTokenUris(index: nat): (r: Result<string, ClubError>)
      ensures r.Success? <==> index < |clubTokenUris|
      ensures r.Success? ==> r.value in clubTokenUris
    {
      if index < |clubTokenUris| then Success(clubTokenUris[index]) else Failure(ArrayIndexOutOfBounds)
    }

    /** `tokenURI`: defined exactly for the tokens minted so far, and always one of the configured URIs. */
    function TokenUri(tokenId: nat): (r: Result<string, ClubError>)
      reads this
      requires Valid()
      ensures r.Success? <==> tokenId < tokenCounter
      ensures r.Success? ==> r.value in clubTokenUris
    {
      if tokenId < |tokens| then Success(tokens[tokenId].tokenUri) else Failure(InvalidTokenId)
    }

    /**
     * `requestNft`: a payment below the mint fee reverts and changes nothing;
     * otherwise the sender is recorded under the coordinator's request id and
     * `NftRequested` is emitted.
     */
    method RequestNft(sender: Address, value: nat, requestId: nat) returns (r: Result<nat, ClubError>)
      requires Valid()
      modifies this
      ensures Valid()
      ensures !Accepts(value) ==> r == Failure(NeedMoreETHSent) && unchanged(this)
      ensures Accepts(value) ==>
                && r == Success(requestId)
                && requestIdToSender == old(requestIdToSender)[requestId := sender]
                && events == old(events) + [NftRequested(requestId, sender)]
                && tokenCounter == old(tokenCounter) && tokens == old(tokens) && initialized == old(initialized)
    {
      if !Accepts(value) {
        return Failure(NeedMoreETHSent);
      }
      requestIdToSender := requestIdToSender[requestId := sender];
      events := events + [NftRequested(requestId, sender)];
      r := Success(requestId);
    }

    /**
     * `fulfillRandomWords`, called back by the coordinator for a request it
     * issued: the first word modulo 100 selects the breed, token number
     * `tokenCounter` is minted to the requester and the counter moves on by one.
     */
    method FulfillRandomWords(requestId: nat, randomWords: seq<nat>)
      requires Valid()
      requires requestId in requestIdToSender && |randomWords| > 0
      modifies this
      ensures Valid()
      ensures tokenCounter == old(tokenCounter) + 1
      ensures var owner := old(requestIdToSender)[requestId];
              var breed := GetBreedFromModdedRng(randomWords[0] % MaxChanceValue, chanceArray);
              && breed.Success?
              && tokens == old(tokens) + [Token(owner, breed.value, clubTokenUris[old(tokenCounter) % |clubTokenUris|])]
              && events == old(events) + [NftMinted(old(tokenCounter), breed.value, owner)]
      ensures requestIdToSender == old(requestIdToSender) && initialized == old(initialized)
    {
      var owner := requestIdToSender[requestId];
      var newTokenId := tokenCounter;
      tokenCounter := tokenCounter + 1;
      var moddedRng := randomWords[0] % MaxChanceValue;
      var breed := GetBreedFromModdedRng(moddedRng, chanceArray);
      var tokenUri := clubTokenUris[newTokenId % |clubTokenUris|];
      tokens := tokens + [Token(owner, breed.value, tokenUri)];
      events := events + [NftMinted(newTokenId, breed.value, owner)];
    }
  }

  /** "sets starting values correctly": initialized, and token URI 0 is an IPFS URI. */
  method SetsStartingValues(tokenUris: seq<string>, mintFee: nat, chances: seq<nat>)
    returns (clubTokenUriZero: Result<string, ClubError>, isInitialized: bool)
    requires |tokenUris| > 0 && AllIpfs(tokenUris) && ChanceTable(chances)
    ensures isInitialized
    ensures clubTokenUriZero.Success? && IpfsScheme <= clubTokenUriZero.value
  {
    var clubNft := new ClubNft(tokenUris, mintFee, chances);
    clubTokenUriZero := clubNft.GetClubTokenUris(0);
    isInitialized := clubNft.GetInitialized();
  }

  /** "fails if payment isn't sent" and "reverts if payment amount is less than the mint fee". */
  method RequestNftBelowFeeReverts(tokenUris: seq<string>, mintFee: nat, chances: seq<nat>,
                                   sender: Address, value: nat, requestId: nat)
    returns (r: Result<nat, ClubError>, requests: map<nat, Address>, emitted: seq<Event>)
    requires |tokenUris| > 0 && ChanceTable(chances) && value < mintFee
    ensures r == Failure(NeedMoreETHSent) && requests == map[] && emitted == []
  {
    var clubNft := new ClubNft(tokenUris, mintFee, chances);
    r := clubNft.RequestNft(sender, value, requestId);
    requests, emitted := clubNft.requestIdToSender, clubNft.events;
  }

  /** "emits an event and kicks off a random word request" when exactly the fee is paid. */
  method RequestNftAtFeeEmits(tokenUris: seq<string>, mintFee: nat, chances: seq<nat>, sender: Address, requestId: nat)
    returns (r: Result<nat, ClubError>, emitted: seq<Event>, tokenCounter: nat)
    requires |tokenUris| > 0 && ChanceTable(chances)
    ensures r == Success(requestId) && emitted == [NftRequested(requestId, sender)] && tokenCounter == 0
  {
    var clubNft := new ClubNft(tokenUris, mintFee, chances);
    r := clubNft.RequestNft(sender, mintFee, requestId);
    emitted, tokenCounter := clubNft.events, clubNft.tokenCounter;
  }

  /**
   * "mints NFT after random number is returned": after one paid request and
   * its fulfilment, the counter is 1, token 0 has an IPFS URI, belongs to the
   * requester and has the breed whose range holds the reduced random word.
   */
  method MintsNftAfterRandomNumber(tokenUris: seq<string>, mintFee: nat, chances: seq<nat>,
                                   sender: Address, requestId: nat, randomWord: nat)
    returns (tokenUri: Result<string, ClubError>, tokenCounter: nat, owner: Address, breed: nat)
    requires |tokenUris| > 0 && AllIpfs(tokenUris) && ChanceTable(chances)
    ensures tokenCounter == 1
    ensures tokenUri.Success? && IpfsScheme <= tokenUri.value
    ensures owner == sender && InBucket(chances, breed, randomWord % MaxChanceValue)
  {
    var clubNft := new ClubNft(tokenUris, mintFee, chances);
    var request := clubNft.RequestNft(sender, mintFee, requestId);
    clubNft.FulfillRandomWords(requestId, [randomWord]);
    tokenUri := clubNft.TokenUri(0);
    tokenCounter := clubNft.GetTokenCounter();
    owner, breed := clubNft.tokens[0].owner, clubNft.tokens[0].breed;
  }
}
