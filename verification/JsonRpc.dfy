/** Identifiers of requests, as both ends of a connection use them. */
module JsonRpc {
  datatype RequestId = StringId(s: string) | IntegerId(n: int)
}
