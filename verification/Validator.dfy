/** Post-execution validation (core/block_validator.go), full and without the state root. */
module Validator {
  import opened Wrappers
  import opened HeaderTree

  datatype Verdict =
    | Ok | NilResult | GasUsedMismatch | BloomMismatch | ReceiptRootMismatch
    | RequestsHashMismatch | UnexpectedRequests | InvalidMerkleRoot

  function ValidateStateCheap(claims: ProcessResult, res: Option<ProcessResult>): (v: Verdict)
    ensures v == Ok <==> res == Some(claims)
    ensures v != InvalidMerkleRoot
  {
    if res.None? then NilResult
    else if claims.gasUsed != res.value.gasUsed then GasUsedMismatch
    else if claims.bloom != res.value.bloom then BloomMismatch
    else if claims.receiptHash != res.value.receiptHash then ReceiptRootMismatch
    else if claims.requestsHash.Some? then
      if claims.requestsHash == res.value.requestsHash then Ok else RequestsHashMismatch
    else if res.value.requestsHash.Some? then UnexpectedRequests
    else Ok
  }

  function ValidateState(claims: ProcessResult, claimedRoot: Root, res: Option<ProcessResult>, root: Root,
                         stateless: bool): (v: Verdict)
  {
    if res.None? then NilResult
    else if claims.gasUsed != res.value.gasUsed then GasUsedMismatch
    else if claims.bloom != res.value.bloom then BloomMismatch
    else if stateless then Ok
    else if claims.receiptHash != res.value.receiptHash then ReceiptRootMismatch
    else if claims.requestsHash.Some? && claims.requestsHash != res.value.requestsHash then RequestsHashMismatch
    else if claims.requestsHash.None? && res.value.requestsHash.Some? then UnexpectedRequests
    else if claimedRoot != root then InvalidMerkleRoot
    else Ok
  }

  /** Stateless validation looks at gas and bloom only. */
  lemma StatelessIsPartial(claims: ProcessResult, claimedRoot: Root, res: Option<ProcessResult>, root: Root)
    ensures ValidateState(claims, claimedRoot, res, root, true) == Ok <==>
            res.Some? && res.value.gasUsed == claims.gasUsed && res.value.bloom == claims.bloom
  {
  }

  /** Full validation is cheap validation followed by the state root check, with the same
      errors in the same order. */
  lemma FullIsCheapPlusRoot(claims: ProcessResult, claimedRoot: Root, res: Option<ProcessResult>, root: Root)
    ensures ValidateState(claims, claimedRoot, res, root, false) ==
            var cheap := ValidateStateCheap(claims, res);
            if cheap != Ok then cheap else if claimedRoot != root then InvalidMerkleRoot else Ok
  {
  }
}
