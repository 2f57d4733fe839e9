/** broker.go: the broker as the entity service sees it. Only `Format` and
    the publisher's `Publish` are modelled; the transport behind them is
    reduced to whether its connection is up. */
module Broker {
  import opened Wrappers
  import opened Models

  /** A watermill message: its key (the command id) and its JSON payload,
      here the desired state it encodes. */
  datatype Message = Message(uuid: string, payload: DesiredState)

  datatype Publication = Publication(topic: string, message: Message)

  datatype PublishError = PublishFailed

  class Broker {
    /** The transport's topic naming, `Format(topic)`: pure, no I/O. */
    const format: string -> string
    /** Whether the transport would accept a publish right now. */
    var connected: bool
    /** Every message the transport has accepted, oldest first. */
    var published: seq<Publication>

    constructor (format: string -> string, connected: bool)
      ensures this.format == format && this.connected == connected && published == []
    {
      this.format := format;
      this.connected := connected;
      published := [];
    }

    /** `GetPublisher().Publish(topic, msg)`: delivered once if the transport is
        up, refused with nothing delivered otherwise; there is no retry. */
    method Publish(topic: string, msg: Message) returns (err: Option<PublishError>)
      modifies this
      ensures connected == old(connected)
      ensures old(connected) ==> err == None && published == old(published) + [Publication(topic, msg)]
      ensures !old(connected) ==> err == Some(PublishFailed) && published == old(published)
    {
      if !connected {
        return Some(PublishFailed);
      }
      published := published + [Publication(topic, msg)];
      return None;
    }
  }
}
