/** Transactions, headers and blocks, as far as the node looks into them. */
module Primitives {
  import opened Wrappers

  type Address = nat
  type TxHash = nat

  /**
   A signed transaction. `signer` is what signature recovery yields, if anything; `hash` is the cached
   hash, which nothing recomputes; `action` is the payload of a game action.
   */
  datatype Tx = Tx(hash: TxHash, signer: Option<Address>, nonce: nat, gasPrice: Option<nat>, gasLimit: nat,
                   isGame: bool, action: Option<nat>)

  /** Header hashing is injective: a digest is either the hash of one header or of nothing the node knows. */
  datatype Hash = Digest(bytes: nat) | OfHeader(header: Header)

  datatype Header = Header(parentHash: Hash, number: nat, timestamp: nat, gameTick: nat, difficulty: nat,
                           beneficiary: Address, gasLimit: nat, gasUsed: nat, extraData: seq<nat>, rest: nat)

  datatype Block = Block(header: Header, txs: seq<Tx>)

  function HashOf(h: Header): Hash { OfHeader(h) }

  /** The flat charge for a game action. */
  const GAME_GAS: nat := 21000
}
