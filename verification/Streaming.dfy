/** tinyserve/streaming/stream_manager.py: one output queue per request. The incremental
    UTF-8 decoder is left out: every pushed token is one chunk. */
module Streaming {
  import opened Requests

  datatype Item = Chunk(token: Token) | End
  datatype Stream = Stream(queue: seq<Item>, cancelled: bool)

  /** The registered streams; everything ever put on a request's queue, and everything its
      consumer has ever taken from it. */
  datatype Streams = Streams(open: map<RequestId, Stream>, sent: map<RequestId, seq<Item>>,
                             taken: map<RequestId, seq<Item>>)

  /** What one turn of a consumer brings. */
  datatype Delivery = Nothing | Delivered(item: Item)

  function AfterCreate(st: Streams, id: RequestId): (st': Streams)
  {
    Streams(st.open[id := Stream([], false)], st.sent[id := []], st.taken[id := []])
  }

  function SentTo(st: Streams, id: RequestId): (items: seq<Item>)
  {
    if id in st.sent then st.sent[id] else []
  }

  function TakenBy(st: Streams, id: RequestId): (items: seq<Item>)
  {
    if id in st.taken then st.taken[id] else []
  }

  /** Put one item on the queue; nothing happens when the consumer has gone. */
  function AfterPut(st: Streams, id: RequestId, item: Item): (st': Streams)
  {
    if id in st.open
    then st.(open := st.open[id := st.open[id].(queue := st.open[id].queue + [item])],
             sent := st.sent[id := SentTo(st, id) + [item]])
    else st
  }

  function AfterCancel(st: Streams, id: RequestId): (st': Streams)
  {
    if id in st.open then st.(open := st.open[id := st.open[id].(cancelled := true)]) else st
  }

  predicate IsCancelled(st: Streams, id: RequestId)
  {
    id in st.open ==> st.open[id].cancelled
  }

  /** The consumer takes one item; after the end marker the stream is unregistered. */
  function AfterTake(st: Streams, id: RequestId): (st': Streams)
  {
    if id in st.open && st.open[id].queue != [] then
      var item, rest := st.open[id].queue[0], st.open[id].queue[1..];
      st.(taken := st.taken[id := TakenBy(st, id) + [item]],
          open := if item == End then st.open - {id} else st.open[id := st.open[id].(queue := rest)])
    else st
  }

  /** The consumer goes away. */
  function AfterDrop(st: Streams, id: RequestId): (st': Streams)
  {
    st.(open := st.open - {id})
  }

  /** The tokens among the items. */
  function Tokens(items: seq<Item>): (tokens: seq<Token>)
  {
    if items == [] then []
    else Tokens(items[..|items| - 1]) + if items[|items| - 1].Chunk? then [items[|items| - 1].token] else []
  }

  lemma TokensPut(items: seq<Item>, item: Item)
    ensures Tokens(items + [item]) == Tokens(items) + if item.Chunk? then [item.token] else []
  {
    assert (items + [item])[..|items|] == items;
  }

  class StreamManager {
    var streams: map<RequestId, Stream>
    ghost var sent: map<RequestId, seq<Item>>
    ghost var taken: map<RequestId, seq<Item>>

    ghost function View(): (st: Streams)
      reads this
    {
      Streams(streams, sent, taken)
    }

    constructor ()
      ensures View() == Streams(map[], map[], map[])
    {
      streams, sent, taken := map[], map[], map[];
    }

    method Create(id: RequestId)
      modifies this
      ensures View() == AfterCreate(old(View()), id)
      ensures streams == old(streams)[id := Stream([], false)]
    {
      streams := streams[id := Stream([], false)];
      sent, taken := sent[id := []], taken[id := []];
    }

    method PushToken(id: RequestId, token: Token)
      modifies this
      ensures View() == AfterPut(old(View()), id, Chunk(token))
    {
      if id in streams {
        sent := sent[id := SentTo(View(), id) + [Chunk(token)]];
        streams := streams[id := streams[id].(queue := streams[id].queue + [Chunk(token)])];
      }
    }

    method Close(id: RequestId)
      modifies this
      ensures View() == AfterPut(old(View()), id, End)
    {
      if id in streams {
        sent := sent[id := SentTo(View(), id) + [End]];
        streams := streams[id := streams[id].(queue := streams[id].queue + [End])];
      }
    }

    method Cancel(id: RequestId)
      modifies this
      ensures View() == AfterCancel(old(View()), id)
      ensures streams.Keys == old(streams).Keys && (id in streams ==> streams[id].cancelled)
      ensures forall x :: x in streams && x != id ==> streams[x] == old(streams)[x]
    {
      if id in streams {
        streams := streams[id := streams[id].(cancelled := true)];
      }
    }

    method IsStreamCancelled(id: RequestId) returns (cancelled: bool)
      ensures cancelled == IsCancelled(View(), id)
      ensures cancelled <==> id !in streams || streams[id].cancelled
    {
      cancelled := if id in streams then streams[id].cancelled else true;
    }

    /** One turn of the consumer's loop: the oldest item not yet taken, if there is one; the end
        marker, and nothing else, unregisters the stream. */
    method Take(id: RequestId) returns (got: Delivery)
      modifies this
      ensures View() == AfterTake(old(View()), id)
      ensures got == Nothing <==> id !in old(streams) || old(streams)[id].queue == []
      ensures got == Nothing ==> streams == old(streams) && taken == old(taken)
      ensures got != Nothing ==>
                && got.item == old(streams)[id].queue[0]
                && taken == old(taken)[id := TakenBy(old(View()), id) + [got.item]]
                && streams == if got.item == End then old(streams) - {id}
                              else old(streams)[id := Stream(old(streams)[id].queue[1..], old(streams)[id].cancelled)]
    {
      got := Nothing;
      if id in streams && streams[id].queue != [] {
        var item, rest := streams[id].queue[0], streams[id].queue[1..];
        got := Delivered(item);
        taken := taken[id := TakenBy(View(), id) + [item]];
        if item == End {
          streams := streams - {id};
        } else {
          streams := streams[id := streams[id].(queue := rest)];
        }
      }
    }

    method Drop(id: RequestId)
      modifies this
      ensures View() == AfterDrop(old(View()), id)
    {
      streams := streams - {id};
    }
  }
}
