/** The NFT certificate contract as an object: the storage fields `mint`
    touches are updated in place, and `Mint` is proved to do what
    CertificateSpec.Mint does. */
module CertificateContract {
  import opened Tezos
  import CertificateSpec

  class NFTCertificate {
    var tokenMetadata: map<nat, CertificateSpec.TokenMetadata>
    var ledger: map<nat, Address>
    var lastTokenId: nat
    var usersAddress: map<Address, nat>

    /** The storage fields as a value. */
    function Storage(): CertificateSpec.Storage
      reads this
    {
      CertificateSpec.Storage(tokenMetadata, ledger, lastTokenId, usersAddress)
    }

    ghost predicate Valid()
      reads this
    {
      CertificateSpec.Valid(Storage())
    }

    /** Deployment with the given initial maps; the starting counter is set
        by the token template, so it is taken as given. */
    constructor (tokenMetadata: map<nat, CertificateSpec.TokenMetadata>, ledger: map<nat, Address>,
                 usersAddress: map<Address, nat>, lastTokenId: nat)
      ensures Storage() == CertificateSpec.Storage(tokenMetadata, ledger, lastTokenId, usersAddress)
      ensures tokenMetadata == map[] && ledger == map[] && usersAddress == map[] ==> Valid()
    {
      this.tokenMetadata := tokenMetadata;
      this.ledger := ledger;
      this.lastTokenId := lastTokenId;
      this.usersAddress := usersAddress;
    }

    /** Entry point `mint(_to, _metadata)` called by `sender`. */
    method Mint(sender: Address, to: Address, metadata: CertificateSpec.Bytes) returns (r: Result<()>)
      modifies this
      ensures sender in old(usersAddress) <==> r == Err(FailWith("User already minted Certificate"))
      ensures sender !in old(usersAddress) <==> r == Ok(())
      ensures r.Err? ==> unchanged(this)
      ensures r.Ok? ==>
                var id := old(lastTokenId);
                && tokenMetadata == old(tokenMetadata)[id := CertificateSpec.TokenMetadata(id, map["" := metadata])]
                && ledger == old(ledger)[id := sender]
                && lastTokenId == id + 1
                && usersAddress == old(usersAddress)[sender := id]
      ensures match CertificateSpec.Mint(old(Storage()), sender, to, metadata)
              case Ok(t) => r.Ok? && Storage() == t
              case Err(e) => r == Err(e)
      ensures old(Valid()) ==> Valid()
    {
      if sender in usersAddress {
        return Err(FailWith("User already minted Certificate"));
      }
      ghost var before := Storage();
      var tokenId := lastTokenId;
      var tokenDetails := CertificateSpec.TokenMetadata(tokenId, map["" := metadata]);
      tokenMetadata := tokenMetadata[tokenId := tokenDetails];
      ledger := ledger[tokenId := sender];
      lastTokenId := lastTokenId + 1;
      usersAddress := usersAddress[sender := tokenId];
      if CertificateSpec.Valid(before) {
        CertificateSpec.MintPreservesValid(before, sender, to, metadata);
      }
      return Ok(());
    }
  }

  /** The contract's test scenario: deployed with empty maps, alice mints a
      certificate, which becomes token 0; her second mint is refused. */
  method TestScenario(alice: Address, to: Address, metadata: CertificateSpec.Bytes)
    returns (first: Result<()>, second: Result<()>, owner: Address, aliceToken: nat)
    ensures first == Ok(())
    ensures second == Err(FailWith("User already minted Certificate"))
    ensures owner == alice && aliceToken == 0
  {
    var certificate := new NFTCertificate(map[], map[], map[], 0);
    first := certificate.Mint(alice, to, metadata);
    second := certificate.Mint(alice, to, metadata);
    owner := certificate.ledger[0];
    aliceToken := certificate.usersAddress[alice];
  }
}
