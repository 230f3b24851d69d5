/** The sink service's bulk write, on the index that it keeps. */
module SinkService {
  import opened Pipeline

  /** The Elasticsearch index behind the sink service. */
  class Sink {
    var docs: Table

    constructor ()
      ensures docs == map[]
    {
      docs := map[];
    }

    /** A bulk write either applies all events in order, or fails having landed what the reply says. */
    method BulkWrite(events: seq<ChangeEvent>, reply: Reply) returns (ok: bool)
      modifies this
      ensures ok <==> reply.Accepted?
      ensures docs == ApplyAll(old(docs), if reply.Accepted? then events else reply.landed)
    {
      var items := if reply.Accepted? then events else reply.landed;
      for i := 0 to |items|
        invariant docs == ApplyAll(old(docs), items[..i])
      {
        assert items[..i + 1][..i] == items[..i];
        match items[i].op {
          case Insert => docs := docs[items[i].key := items[i].document];
          case Update => docs := docs[items[i].key := items[i].document];
          case Delete => docs := docs - {items[i].key};
          case Other =>
        }
      }
      assert items[..|items|] == items;
      ok := reply.Accepted?;
    }
  }
}
