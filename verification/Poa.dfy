/** Proof-of-authority checks on a block, given its parent header. */
module Poa {
  import opened Wrappers
  import opened Primitives

  datatype ConsensusError = InvalidHeader | InvalidSignature | UnknownValidator | NotValidator

  /** Signature recovery over a header hash: some deterministic partial function. */
  type Recover = (Hash, seq<nat>) -> Option<Address>

  function VerifyHeader(h: Header, parent: Header): Option<ConsensusError> {
    if h.number != parent.number + 1 then Some(InvalidHeader)
    else if h.parentHash != HashOf(parent) then Some(InvalidHeader)
    else if h.timestamp <= parent.timestamp then Some(InvalidHeader)
    else if h.gameTick != parent.gameTick + 1 then Some(InvalidHeader)
    else if h.difficulty != 1 then Some(InvalidHeader)
    else None
  }

  /** The signature covers the header with an empty seal. */
  function SignerOf(recover: Recover, h: Header): Option<Address> {
    if |h.extraData| != 65 then None else recover(HashOf(h.(extraData := [])), h.extraData)
  }

  function VerifyBlock(recover: Recover, validators: seq<Address>, b: Block, parent: Header): Option<ConsensusError> {
    var error := VerifyHeader(b.header, parent);
    if error.Some? then error
    else if b.header.number == 0 || b.header.extraData == [] then None
    else
      var signer := SignerOf(recover, b.header);
      if signer.None? then Some(InvalidSignature)
      else if signer.value !in validators then Some(UnknownValidator)
      else if signer.value != b.header.beneficiary then Some(InvalidSignature)
      else None
  }
}
