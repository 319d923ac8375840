/** The event store as a whole: what interleaved appends leave in a stream, and what `load` makes of it. */
module StoredStreams {
  import opened Wrappers
  import opened JsStrings
  import opened JsonValues
  import opened Envelopes
  import opened Wire
  import opened StoredEvents
  import opened EndToEnd
  import AppendProtocol

  /** What one call appends: an envelope created at time ns by the process `trace`. */
  datatype Event = Event(ns: int, trace: JsStr, payload: Value)

  type Events = AppendProtocol.OpId -> Event

  function EnvelopeOf(signer: Signer, e: Event): Envelope {
    Create(signer, e.ns, e.trace, e.payload)
  }

  /** The rows of a stream as the driver returns them, when call i appends the event events(i). */
  ghost predicate StoredStream(signer: Signer, host: Host, events: Events,
                               stream: seq<AppendProtocol.Row>, rows: seq<Row>) {
    |rows| == |stream| &&
    forall k :: 0 <= k < |stream| ==> StoredAs(host, EnvelopeOf(signer, events(stream[k].op)), rows[k])
  }

  predicate EventSurvives(host: Host, e: Event) {
    host.readInt(e.ns) == Num(e.ns) && Survives(host, e.payload)
  }

  /** The loaded envelope carries the content and the text that were signed. */
  ghost predicate SameContent(signer: Signer, e: Event, got: Envelope) {
    && Equiv(EnvelopeOf(signer, e).metadata, got.metadata)
    && Equiv(e.payload, got.payload)
    && SignedText(got.metadata, got.payload) == SignedText(EnvelopeOf(signer, e).metadata, e.payload)
  }

  ghost predicate SameContents(signer: Signer, events: Events, stream: seq<AppendProtocol.Row>, got: seq<Envelope>) {
    && |got| == |stream|
    && forall k :: 0 <= k < |stream| ==> SameContent(signer, events(stream[k].op), got[k])
  }

  lemma RowLoads(signer: Signer, host: Host, e: Event, row: Row)
    requires Ideal(signer) && HostOk(host) && Wf(e.payload) && StoredAs(host, EnvelopeOf(signer, e), row)
    ensures LoadRow(signer, host, row).Ok? <==> EventSurvives(host, e)
    ensures LoadRow(signer, host, row).Ok? ==> SameContent(signer, e, LoadRow(signer, host, row).value)
  {
    MetadataSurvivesIff(host, e.ns, e.trace);
    StoreRoundTrip(signer, host, EnvelopeOf(signer, e), row);
  }

  /** Load of a stream, row by row. */
  lemma StreamLoads(signer: Signer, host: Host, events: Events, stream: seq<AppendProtocol.Row>, rows: seq<Row>,
                    r: Result<seq<Envelope>, LoadError>)
    requires Ideal(signer) && HostOk(host) && forall i :: Wf(events(i).payload)
    requires StoredStream(signer, host, events, stream, rows) && IsLoad(signer, host, rows, r)
    ensures r.Ok? <==> forall k :: 0 <= k < |stream| ==> EventSurvives(host, events(stream[k].op))
    ensures r.Ok? ==> SameContents(signer, events, stream, r.value)
  {
    forall k | 0 <= k < |stream|
      ensures LoadRow(signer, host, rows[k]).Ok? <==> EventSurvives(host, events(stream[k].op))
      ensures LoadRow(signer, host, rows[k]).Ok? ==>
                SameContent(signer, events(stream[k].op), LoadRow(signer, host, rows[k]).value)
    {
      RowLoads(signer, host, events(stream[k].op), rows[k]);
    }
  }

  /** In every run of interleaved appends, of created envelopes, `load` succeeds exactly when the integers of every
      event whose append returned success on the aggregate survive being doubles. It then returns one
      envelope for each of these calls, in the order of their commits, with the signed content. */
  lemma LoadReturnsFinishedCalls(maxRetries: nat, steps: seq<AppendProtocol.Step>, a: AppendProtocol.Aggregate,
                                 signer: Signer, host: Host, events: Events, rows: seq<Row>,
                                 r: Result<seq<Envelope>, LoadError>)
    requires AppendProtocol.Run(maxRetries, AppendProtocol.INIT, steps).Some?
    requires Ideal(signer) && HostOk(host) && forall i :: Wf(events(i).payload)
    requires var s := AppendProtocol.Run(maxRetries, AppendProtocol.INIT, steps).value;
             StoredStream(signer, host, events, AppendProtocol.Stream(s.rows, a), rows)
    requires IsLoad(signer, host, rows, r)
    ensures var s := AppendProtocol.Run(maxRetries, AppendProtocol.INIT, steps).value;
            var stream := AppendProtocol.Stream(s.rows, a);
            && (forall i :: AppendProtocol.RowsOf(stream, i) == if AppendProtocol.Finished(s, i, a) then 1 else 0)
            && (r.Ok? <==> forall i :: AppendProtocol.Finished(s, i, a) ==> EventSurvives(host, events(i)))
            && (r.Ok? ==> SameContents(signer, events, stream, r.value))
            && (forall k :: 0 <= k < |stream| ==> stream[k].version == k + 1)
  {
    var s := AppendProtocol.Run(maxRetries, AppendProtocol.INIT, steps).value;
    var stream := AppendProtocol.Stream(s.rows, a);
    StreamLoads(signer, host, events, stream, rows, r);
    AppendProtocol.VersionsAreDense(maxRetries, steps, a);
    forall i ensures AppendProtocol.RowsOf(stream, i) == if AppendProtocol.Finished(s, i, a) then 1 else 0 {
      AppendProtocol.StreamNamesFinishedCalls(maxRetries, steps, a, i);
    }
    forall i ensures AppendProtocol.Finished(s, i, a) <==> exists k :: 0 <= k < |stream| && stream[k].op == i {
      AppendProtocol.RowsOfPositive(stream, i);
    }
  }
}
