/** What a controller answers: an HTTP status with a JSON body. Every refusal
    carries its reason in an `error` field. */
module Http {
  import opened Json

  /** An error reply: HTTP status and the `error` text. */
  datatype Failure = Failure(status: nat, error: string)

  /** An HTTP reply: status and JSON body. */
  datatype Reply = Reply(status: nat, body: Value)

  function Failed(f: Failure): Reply {
    Reply(f.status, JObj([("error", JStr(f.error))]))
  }

  /** The `{ ok: true }` body of a successful update or delete. */
  const OkBody: Value := JObj([("ok", JBool(true))])
}
