/**
 * The hosted chat model, seen from the pipeline. Nothing of the service is
 * modelled: each node receives the model's reply as a parameter, and records
 * the request it would have sent, so the number of requests a run makes is
 * the length of its request log.
 */
module ModelClient {

  /** What a request asks the model for. */
  datatype Purpose = Generate | Critique | Rewrite

  /**
   * One outbound request: its purpose and the state value interpolated into
   * the prompt (the topic for `Generate`, the joke otherwise).
   */
  datatype Request = Request(purpose: Purpose, subject: string)
}
