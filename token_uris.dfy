/**
 * The token-URI assembly of the deploy script (deploy/02-deploy-club-nft.js):
 * for every uploaded club image, a metadata record is built from a fresh copy
 * of a fixed template, uploaded, and `ipfs://<metadata hash>` is appended to
 * the list of token URIs handed to the contract's constructor.
 *
 * The two Pinata uploads are not modelled: the image upload is given as its
 * responses' hashes (with the file names it read), and the metadata upload as
 * a function from the record to the hash of its stored JSON.
 */
module TokenUris {
  import opened Wrappers
  import opened JsString

  /** The JSON record uploaded for each image. */
  datatype TokenUriMetadata = TokenUriMetadata(name: string, description: string, image: string, fans: string)

  /** `metadataTemplate`: every field empty. */
  const MetadataTemplate := TokenUriMetadata("", "", "", "")

  const IpfsScheme := "ipfs://"

  /** The token URIs used when the deployment does not upload to Pinata ("ipfs://Qmb...", ...). */
  const DefaultTokenUris: seq<string> := [
    IpfsScheme + "QmbKDdqpUPFDHqg4FX2zDjwUTvYNBm4kKffkzd75syvsDT",
    IpfsScheme + "QmTTWVrSu44dPDCTpsfVamReyX7knubCvM5EUcePwkWyeD",
    IpfsScheme + "QmW2EQs4qxnjNQR5Te6kUf9P7WHB4DAF4yYTSwkEoaM6E1",
    IpfsScheme + "QmWavDYkfu18KtyqygzwVmi5i8JJXcyVPPipycG5vmNoyT"
  ]

  /** The `case` labels of the fan-group `switch`, in source order, with the label each body assigns. */
  const FanCases: seq<(string, string)> := [
    ("HAJDUK", "TORCIDA"), ("DINAMO", "BBB"), ("RIJEKA", "ARMADA"), ("OSIJEK", "KOHORTA")
  ]

  const ClubNames: set<string> := {"HAJDUK", "DINAMO", "RIJEKA", "OSIJEK"}

  /** Every element is an IPFS URI. */
  predicate AllIpfs(uris: seq<string>) {
    forall k :: 0 <= k < |uris| ==> IpfsScheme <= uris[k]
  }

  predicate HasCase(cases: seq<(string, string)>, discriminant: string) {
    exists k :: 0 <= k < |cases| && cases[k].0 == discriminant
  }

  /**
   * A JavaScript `switch` whose case bodies each assign one variable and have
   * no `break`: once a label matches (`entered`), the bodies of that case and
   * of every case after it run, in order. `value` is the variable's value so far.
   */
  function FallThrough(cases: seq<(string, string)>, discriminant: string, entered: bool, value: string): (r: string)
    ensures r == value || exists k :: 0 <= k < |cases| && r == cases[k].1
    ensures !entered && !HasCase(cases, discriminant) ==> r == value
    decreases |cases|
  {
    if cases == [] then value
    else
      var entered' := entered || cases[0].0 == discriminant;
      FallThrough(cases[1..], discriminant, entered', if entered' then cases[0].1 else value)
  }

  /** With fall-through, any match leaves the value assigned by the LAST case body. */
  lemma {:induction false} FallThroughLastBodyWins(cases: seq<(string, string)>, discriminant: string, entered: bool, value: string)
    ensures FallThrough(cases, discriminant, entered, value) ==
            if cases != [] && (entered || HasCase(cases, discriminant)) then cases[|cases| - 1].1 else value
  {
    if cases != [] {
      var entered' := entered || cases[0].0 == discriminant;
      var value' := if entered' then cases[0].1 else value;
      FallThroughLastBodyWins(cases[1..], discriminant, entered', value');
      if !entered' && HasCase(cases, discriminant) {
        var k :| 0 <= k < |cases| && cases[k].0 == discriminant;
        assert cases[1..][k - 1].0 == discriminant;
      }
      if HasCase(cases[1..], discriminant) {
        var k :| 0 <= k < |cases[1..]| && cases[1..][k].0 == discriminant;
        assert cases[k + 1].0 == discriminant;
      }
    }
  }

  /**
   * The `fans` value the switch leaves, starting from the template's empty
   * value: every club name ends up with the last case's "KOHORTA", any other
   * name keeps "".
   */
  function FansFor(name: string): (fans: string)
    ensures fans == if name in ClubNames then "KOHORTA" else ""
    ensures fans == "KOHORTA" <==> name in ClubNames
  {
    FallThroughLastBodyWins(FanCases, name, false, MetadataTemplate.fans);
    assert name in ClubNames ==> HasCase(FanCases, name) by {
      if name in ClubNames {
        var k := if name == "HAJDUK" then 0 else if name == "DINAMO" then 1 else if name == "RIJEKA" then 2 else 3;
        assert FanCases[k].0 == name;
      }
    }
    FallThrough(FanCases, name, false, MetadataTemplate.fans)
  }

  /** The record's name: the file name with its first ".png" removed. */
  function StripPng(file: string): (name: string)
    ensures (forall j :: !OccursAt(file, ".png", j)) ==> name == file
    ensures (exists j :: OccursAt(file, ".png", j)) ==> |name| == |file| - 4
  {
    ReplaceFirst(file, ".png", "")
  }

  /** A dot-free base name with ".png" appended gets the base name back. */
  lemma StripPngOfBaseName(base: string)
    requires '.' !in base
    ensures StripPng(base + ".png") == base
  {
    var s := base + ".png";
    assert OccursAt(s, ".png", |base|);
    forall j: nat | j < |base| ensures !OccursAt(s, ".png", j) {
      NoPngBeforeExtension(base, j);
    }
    assert s[..|base|] == base;
  }

  lemma NoPngBeforeExtension(base: string, j: nat)
    requires '.' !in base && j < |base|
    ensures !OccursAt(base + ".png", ".png", j)
  {
    var s := base + ".png";
    if j + 4 <= |s| {
      assert s[j..j + 4][0] == base[j] != ".png"[0];
    }
  }

  /** A file name without ".png" is used unchanged as the name. */
  lemma StripPngWithoutExtension(file: string)
    requires forall j :: !OccursAt(file, ".png", j)
    ensures StripPng(file) == file
  {
    ReplaceFirstAbsent(file, ".png", "");
  }

  /** A file name with ".png" loses exactly its first occurrence. */
  lemma StripPngWithExtension(file: string, k: nat)
    requires OccursAt(file, ".png", k)
    ensures |StripPng(file)| == |file| - 4
    ensures exists i: nat :: i <= k && file == StripPng(file)[..i] + ".png" + StripPng(file)[i..]
  {
    ReplaceFirstPresent(file, ".png", "", k);
    var i: nat :| i <= k && OccursAt(file, ".png", i) &&
                  ReplaceFirst(file, ".png", "") == file[..i] + "" + file[i + 4..];
    var r := StripPng(file);
    assert r[..i] == file[..i] && r[i..] == file[i + 4..];
    assert file == file[..i] + file[i..i + 4] + file[i + 4..];
  }

  function Description(name: string, fans: string): string {
    " " + name + " with " + fans + " fans!"
  }

  /**
   * The record built for one image: a fresh template copy with every field
   * set from this image alone, so nothing carries over from another image.
   */
  function BuildMetadata(file: string, imageHash: string): (m: TokenUriMetadata)
    ensures m.name == StripPng(file)
    ensures m.fans == (if m.name in ClubNames then "KOHORTA" else "")
  {
    var name := StripPng(file);
    var fans := FansFor(name);
    MetadataTemplate.(name := name, fans := fans, description := Description(name, fans), image := IpfsScheme + imageHash)
  }

  /** A club's image file, `HAJDUK.png` say, yields the record with the club's name and "KOHORTA". */
  lemma ClubFileMetadata(club: string, imageHash: string)
    requires club in ClubNames
    ensures BuildMetadata(club + ".png", imageHash) ==
            TokenUriMetadata(club, " " + club + " with " + "KOHORTA" + " fans!", "ipfs://" + imageHash, "KOHORTA")
  {
    ClubNameHasNoDot(club);
    StripPngOfBaseName(club);
    var m := BuildMetadata(club + ".png", imageHash);
    assert m.name == club && m.fans == "KOHORTA";
  }

  /** Any other file name keeps the template's empty fan group, which leaves a double space in the description. */
  lemma OtherFileMetadata(file: string, imageHash: string)
    requires StripPng(file) !in ClubNames
    ensures BuildMetadata(file, imageHash) ==
            TokenUriMetadata(StripPng(file), " " + StripPng(file) + " with " + "" + " fans!", "ipfs://" + imageHash, "")
  {
  }

  lemma ClubNameHasNoDot(club: string)
    requires club in ClubNames
    ensures '.' !in club
  {
  }

  /** The URI pushed for one image: the IPFS URI of its uploaded record. */
  function MetadataUri(file: string, imageHash: string, storeTokenUriMetadata: TokenUriMetadata -> string): (uri: string)
    ensures IpfsScheme <= uri
    ensures uri[|IpfsScheme|..] == storeTokenUriMetadata(BuildMetadata(file, imageHash))
  {
    IpfsScheme + storeTokenUriMetadata(BuildMetadata(file, imageHash))
  }

  /** The list of token URIs for the images uploaded with `imageHashes`, in upload order. */
  function TokenUrisFor(files: seq<string>, imageHashes: seq<string>, storeTokenUriMetadata: TokenUriMetadata -> string): (uris: seq<string>)
    requires |imageHashes| <= |files|
    ensures |uris| == |imageHashes|
    ensures forall k :: 0 <= k < |uris| ==> uris[k] == MetadataUri(files[k], imageHashes[k], storeTokenUriMetadata)
    ensures AllIpfs(uris)
  {
    if imageHashes == [] then []
    else
      var n := |imageHashes| - 1;
      TokenUrisFor(files, imageHashes[..n], storeTokenUriMetadata) + [MetadataUri(files[n], imageHashes[n], storeTokenUriMetadata)]
  }

  /** Uploading fewer images gives a prefix of the list: URIs are only ever appended. */
  lemma {:induction false} TokenUrisForPrefix(files: seq<string>, imageHashes: seq<string>, n: nat, storeTokenUriMetadata: TokenUriMetadata -> string)
    requires n <= |imageHashes| <= |files|
    ensures TokenUrisFor(files, imageHashes[..n], storeTokenUriMetadata) <= TokenUrisFor(files, imageHashes, storeTokenUriMetadata)
  {
    var short := TokenUrisFor(files, imageHashes[..n], storeTokenUriMetadata);
    var full := TokenUrisFor(files, imageHashes, storeTokenUriMetadata);
    assert forall k :: 0 <= k < n ==> short[k] == full[k];
  }

  /** One more image response appends exactly its URI. */
  lemma {:induction false} TokenUrisForStep(files: seq<string>, imageHashes: seq<string>, i: nat, storeTokenUriMetadata: TokenUriMetadata -> string)
    requires i < |imageHashes| && i < |files|
    ensures TokenUrisFor(files, imageHashes[..i + 1], storeTokenUriMetadata) ==
            TokenUrisFor(files, imageHashes[..i], storeTokenUriMetadata) + [MetadataUri(files[i], imageHashes[i], storeTokenUriMetadata)]
  {
    assert imageHashes[..i + 1][..i] == imageHashes[..i];
  }

  /** The four default token URIs are IPFS URIs. */
  lemma DefaultTokenUrisShape()
    ensures |DefaultTokenUris| == 4 && AllIpfs(DefaultTokenUris)
  {

  }

  /**
   * The body of `handleTokenUris`'s loop up to the upload: copy the template,
   * then set name, fans (through the fall-through `switch`), description and image.
   */
  method BuildTokenUriMetadata(file: string, imageHash: string) returns (tokenUriMetadata: TokenUriMetadata)
    ensures tokenUriMetadata == BuildMetadata(file, imageHash)
  {
    tokenUriMetadata := MetadataTemplate;
    tokenUriMetadata := tokenUriMetadata.(name := ReplaceFirst(file, ".png", ""));
    // `switch (tokenUriMetadata.name)` with no `break`: a match runs every later case body too
    var entered := tokenUriMetadata.name == "HAJDUK";
    if entered { tokenUriMetadata := tokenUriMetadata.(fans := "TORCIDA"); }
    entered := entered || tokenUriMetadata.name == "DINAMO";
    if entered { tokenUriMetadata := tokenUriMetadata.(fans := "BBB"); }
    entered := entered || tokenUriMetadata.name == "RIJEKA";
    if entered { tokenUriMetadata := tokenUriMetadata.(fans := "ARMADA"); }
    entered := entered || tokenUriMetadata.name == "OSIJEK";
    if entered { tokenUriMetadata := tokenUriMetadata.(fans := "KOHORTA"); }
    tokenUriMetadata := tokenUriMetadata.(description := " " + tokenUriMetadata.name + " with " + tokenUriMetadata.fans + " fans!");
    tokenUriMetadata := tokenUriMetadata.(image := "ipfs://" + imageHash);
    assert FansFor(tokenUriMetadata.name) == tokenUriMetadata.fans;
  }

  /** `files[i]` is `undefined`: calling `.replace` on it throws a TypeError. */
  datatype DeployError = MissingFileName(index: nat)

  /** The deploy script's module-level `tokenUris` list. */
  class Deployment {
    var tokenUris: seq<string>

    ghost predicate Valid()
      reads this
    {
      AllIpfs(tokenUris)
    }

    constructor ()
      ensures Valid() && tokenUris == DefaultTokenUris
    {
      tokenUris := DefaultTokenUris;
      DefaultTokenUrisShape();
    }

    /**
     * `handleTokenUris`: reset `tokenUris`, then per image response build its
     * record field by field and push the URI of the uploaded record.
     */
    method HandleTokenUris(imageHashes: seq<string>, files: seq<string>, storeTokenUriMetadata: TokenUriMetadata -> string)
      returns (r: Result<seq<string>, DeployError>)
      modifies this
      ensures Valid()
      ensures |imageHashes| <= |files| ==>
                tokenUris == TokenUrisFor(files, imageHashes, storeTokenUriMetadata) && r == Success(tokenUris)
      ensures |files| < |imageHashes| ==>
                tokenUris == TokenUrisFor(files, imageHashes[..|files|], storeTokenUriMetadata) &&
                r == Failure(MissingFileName(|files|))
    {
      tokenUris := [];
      var i := 0;
      while i < |imageHashes|
        invariant i <= |imageHashes| && i <= |files|
        invariant tokenUris == TokenUrisFor(files, imageHashes[..i], storeTokenUriMetadata)
      {
        if i == |files| {
          return Failure(MissingFileName(i));
        }
        var tokenUriMetadata := BuildTokenUriMetadata(files[i], imageHashes[i]);
        var metadataUploadHash := storeTokenUriMetadata(tokenUriMetadata);
        tokenUris := tokenUris + ["ipfs://" + metadataUploadHash];
        TokenUrisForStep(files, imageHashes, i, storeTokenUriMetadata);
        i := i + 1;
      }
      assert imageHashes[..i] == imageHashes;
      r := Success(tokenUris);
    }

    /**
     * Lines 33-35 of the deploy script: the list is rebuilt only when the
     * environment variable UPLOAD_TO_PINATA is the string "true" (`None` when unset).
     */
    method ResolveTokenUris(uploadToPinata: Option<string>, imageHashes: seq<string>, files: seq<string>,
                            storeTokenUriMetadata: TokenUriMetadata -> string)
      returns (r: Result<seq<string>, DeployError>)
      requires Valid()
      modifies this
      ensures Valid()
      ensures uploadToPinata != Some("true") ==> tokenUris == old(tokenUris) && r == Success(tokenUris)
      ensures uploadToPinata == Some("true") && |imageHashes| <= |files| ==>
                tokenUris == TokenUrisFor(files, imageHashes, storeTokenUriMetadata) && r == Success(tokenUris)
      ensures uploadToPinata == Some("true") && |files| < |imageHashes| ==>
                tokenUris == TokenUrisFor(files, imageHashes[..|files|], storeTokenUriMetadata) &&
                r == Failure(MissingFileName(|files|))
    {
      if uploadToPinata == Some("true") {
        r := HandleTokenUris(imageHashes, files, storeTokenUriMetadata);
      } else {
        r := Success(tokenUris);
      }
    }
  }
}
