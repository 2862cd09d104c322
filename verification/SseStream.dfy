/**
 The incremental server-sent-event framing of the streaming providers: a subset of sections 9.2.5
 and 9.2.6 of the WHATWG HTML Living Standard, in which only a pair of line feeds ends a frame.
 */
module SseStream {
  import opened Wrappers
  import opened Sequences
  import opened RustText
  import opened Utf8
  import opened SseFrames

  /** What the upstream byte stream yields. */
  datatype Delivery = Bytes(bytes: seq<byte>) | Failed(error: string)

  class SseProviderStream {
    const provider: Provider
    var upstream: seq<Delivery>
    var buffer: string
    var pending: seq<Item>

    constructor (provider: Provider, upstream: seq<Delivery>)
      ensures this.provider == provider
      ensures Rest() == Events(provider, "", upstream)
    {
      this.provider := provider;
      this.upstream := upstream;
      buffer, pending := "", [];
    }

    /** Everything the stream is still going to yield. */
    ghost function Rest(): seq<Item>
      reads this
    {
      pending + Events(provider, buffer, upstream)
    }

    method Next() returns (item: Option<Item>)
      modifies this
      ensures item == None <==> old(Rest()) == []
      ensures item.Some? ==> old(Rest()) == [item.value] + Rest()
      ensures item == None ==> Rest() == []
    {
      while true
        invariant Rest() == old(Rest())
        decreases |upstream|, |buffer|, if pending == [] then 0 else 1
      {
        if pending != [] {
          item := Some(pending[0]);
          Cons(pending);
          Assoc([pending[0]], pending[1..], Events(provider, buffer, upstream));
          pending := pending[1..];
          return;
        }
        var frame := PopSseFrame();
        if frame.Some? {
          pending := ParseFrame(provider, frame.value);
          continue;
        }
        if upstream == [] {
          EventsAtEnd(provider, buffer);
          if IsBlank(buffer) {
            return None;
          }
          pending := ParseFrame(provider, buffer);
          buffer := "";
          continue;
        }
        EventsAtDelivery(provider, buffer, upstream);
        var delivery := upstream[0];
        upstream := upstream[1..];
        if delivery.Failed? {
          return Some(Failure(Rejected(delivery.error)));
        }
        buffer := buffer + DecodeLossy(delivery.bytes);
      }
    }

    method PopSseFrame() returns (frame: Option<string>)
      modifies this`buffer
      ensures frame.None? ==> buffer == old(buffer) && NoSeparator(buffer)
      ensures frame.Some? ==>
        && |buffer| < |old(buffer)|
        && NoSeparatorBefore(old(buffer), |frame.value|)
        && old(buffer) == frame.value + SEPARATOR + buffer
      ensures frame.Some? ==>
        Events(provider, old(buffer), upstream)
        == ParseFrame(provider, frame.value) + Events(provider, buffer, upstream)
    {
      var index := FindSeparator(buffer);
      if index == |buffer| {
        return None;
      }
      frame := Some(buffer[..index]);
      buffer := buffer[index + 2..];
    }
  }

  // ---------------------------------------------------------------- what the stream yields

  /** The items of a buffer and of the deliveries that follow. */
  function Events(p: Provider, buffer: string, upstream: seq<Delivery>): seq<Item>
    decreases |upstream|, |buffer|
  {
    var index := FindSeparator(buffer);
    if index < |buffer| then ParseFrame(p, buffer[..index]) + Events(p, buffer[index + 2..], upstream)
    else if upstream == [] then (if IsBlank(buffer) then [] else ParseFrame(p, buffer))
    else
      match upstream[0]
      case Bytes(bytes) => Events(p, buffer + DecodeLossy(bytes), upstream[1..])
      case Failed(error) => [Failure(Rejected(error))] + Events(p, buffer, upstream[1..])
  }

  lemma EventsAtEnd(p: Provider, buffer: string)
    requires NoSeparator(buffer)
    ensures Events(p, buffer, []) == if IsBlank(buffer) then [] else ParseFrame(p, buffer)
    ensures Events(p, "", []) == []
  {
    assert FindSeparator(buffer) == |buffer|;
  }

  lemma EventsAtDelivery(p: Provider, buffer: string, upstream: seq<Delivery>)
    requires NoSeparator(buffer) && upstream != []
    ensures upstream[0].Bytes? ==>
      Events(p, buffer, upstream) == Events(p, buffer + DecodeLossy(upstream[0].bytes), upstream[1..])
    ensures upstream[0].Failed? ==>
      Events(p, buffer, upstream) == [Failure(Rejected(upstream[0].error))] + Events(p, buffer, upstream[1..])
  {
    assert FindSeparator(buffer) == |buffer|;
  }
}
