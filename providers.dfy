/** The AI provider capability (providers/interface.go), as the suggestion handler calls it. */
module Providers {
  import opened Wrappers

  /** The structured reply of a provider: an optional corrected query and the proposed terms. */
  datatype AIResponse = AIResponse(didYouMean: string, suggestions: seq<string>)

  /** Why a provider call produced no reply. */
  datatype ProviderError =
    | InvokeFailed(reason: string)
    | BadStatus(status: int, body: string)
    | UndecodableReply
    | EmptyContent
    | UndecodableContent

  /** A provider, called with the raw query and the existing author suggestions. */
  type AIProvider = (string, seq<string>) -> Result<AIResponse, ProviderError>
}
