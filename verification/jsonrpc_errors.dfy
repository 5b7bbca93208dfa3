/** The five reserved JSON-RPC 2.0 error codes the server uses. */
module JsonRpcErrors {

  const ErrorParseError: int := -32700
  const ErrorInvalidRequest: int := -32600
  const ErrorMethodNotFound: int := -32601
  const ErrorInvalidParams: int := -32602
  const ErrorInternal: int := -32603

  /** The codes in declaration order. */
  const ReservedCodes: seq<int> :=
    [ErrorParseError, ErrorInvalidRequest, ErrorMethodNotFound, ErrorInvalidParams, ErrorInternal]

  /** Section 5.1 of the JSON-RPC 2.0 specification reserves -32768..-32000 for
      pre-defined errors. */
  predicate InPredefinedRange(code: int) {
    -32768 <= code <= -32000
  }

  /** Every code the server emits lies in the pre-defined range, and no two coincide, so a
      client can tell the five failure kinds apart by code alone. */
  lemma CodesReservedAndDistinct()
    ensures forall i :: 0 <= i < |ReservedCodes| ==> InPredefinedRange(ReservedCodes[i])
    ensures forall i, j :: 0 <= i < j < |ReservedCodes| ==> ReservedCodes[i] != ReservedCodes[j]
  {
  }
}
