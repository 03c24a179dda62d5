/**
 Reserved addresses and the code tag that route a transaction (evm/dispatch.go,
 exchange/exchange.go, pos/attestation.go).
 */
module Dispatch {
  import opened Core
  import opened State

  const EXCHANGE_ADDRESS: Address :=
    [0xEC, 0x0B, 0x00, 0x00, 0x00, 0x00, 0x00, 0x00, 0x00, 0x00, 0x00, 0x00, 0x00, 0x00, 0x00, 0x00, 0x00, 0x00, 0x00, 0x01]

  const DEPLOY_ADDRESS: Address :=
    [0x45, 0x56, 0x4D, 0x00, 0x00, 0x00, 0x00, 0x00, 0x00, 0x00, 0x00, 0x00, 0x00, 0x00, 0x00, 0x00, 0x00, 0x00, 0x00, 0x01]

  const ATTEST_ADDRESS: Address :=
    [0x50, 0x4F, 0x53, 0x00, 0x00, 0x00, 0x00, 0x00, 0x00, 0x00, 0x00, 0x00, 0x00, 0x00, 0x00, 0x00, 0x00, 0x00, 0x00, 0x01]

  /** An invalid opcode, "L1EVM1", and the invalid opcode again. */
  const CODE_MAGIC: Bytes := [0xFE, 0x4C, 0x31, 0x45, 0x56, 0x4D, 0x31, 0xFE]

  function TagCode(runtime: Bytes): Bytes { CODE_MAGIC + runtime }

  predicate IsTaggedCode(code: Bytes) {
    |code| >= 8 && code[..8] == CODE_MAGIC
  }

  function UntagCode(code: Bytes): Bytes {
    if IsTaggedCode(code) then code[8..] else code
  }

  /** Tagging is undone by untagging, and untagging tagged code by tagging. */
  lemma TagRoundTrip(runtime: Bytes)
    ensures IsTaggedCode(TagCode(runtime)) && UntagCode(TagCode(runtime)) == runtime
  {
  }

  lemma UntagRoundTrip(code: Bytes)
    ensures TagCode(UntagCode(code)) == code <==> IsTaggedCode(code)
  {
  }
}
