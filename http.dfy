/** What a `fetch` call can come back with, as seen by the code that awaits it. */
module Http {
  import opened Wrappers
  import Js

  /** `response.ok`: a status in the range 200-299. */
  predicate IsOk(status: int)
  {
    200 <= status <= 299
  }

  datatype Response =
      /**
        The server replied. `text` is what `response.text()` yields and `json` what
        `response.json()` yields, or the message of the error it throws.
      */
    | Replied(status: int, text: string, json: Result<Js.Value, string>)
      /** The request was aborted by its timeout before a reply arrived. */
    | Aborted
      /** `fetch` itself threw (a network failure), with this message. */
    | Threw(message: string)
}
