/**
 * The optional Pub/Sub forwarding of the cloud relay (`publish_to_pubsub`).
 * The Google client itself is outside the model: whether serialising,
 * publishing or waiting for the acknowledgement (at most 5 seconds)
 * raises is an oracle, so a timeout is one more way to raise.
 */
module Sink {
  import opened Wrappers

  /** A parsed JSON value, as `json.loads` returns it. */
  datatype Json =
    | JNull
    | JBool(b: bool)
    | JNumber(n: real)
    | JString(s: string)
    | JArray(items: seq<Json>)
    | JObject(fields: seq<(string, Json)>)

  /**
   * The relay's `publisher` and `topic_path` attributes: whether a publisher
   * client exists, and the topic path when one was computed.
   */
  datatype PubSub = PubSub(hasPublisher: bool, topicPath: Option<string>)

  /** Python truthiness of both attributes: a publisher, and a non-empty topic path. */
  predicate Configured(sink: PubSub) {
    sink.hasPublisher && sink.topicPath.Some? && sink.topicPath.value != ""
  }

  /** What one call did: returned at the guard, published, or logged an error it caught. */
  datatype PublishResult = Skipped | Published | ErrorLogged

  /**
   * `publish_to_pubsub`: a no-op unless the sink is configured; otherwise
   * one publish attempt, and an exception raised anywhere in it (`raises`)
   * is caught and logged. The result type has no exception case: nothing
   * propagates to the caller.
   */
  function PublishToPubsub(sink: PubSub, message: Json, raises: bool): (r: PublishResult)
    ensures r == Skipped <==> !Configured(sink)
    ensures r == Published <==> Configured(sink) && !raises
    ensures r == ErrorLogged <==> Configured(sink) && raises
  {
    if !Configured(sink) then Skipped
    else if raises then ErrorLogged
    else Published
  }
}
