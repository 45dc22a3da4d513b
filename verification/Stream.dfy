/** The Redis stream between the relay and the webhook workers. */
module Stream {
  import opened Common
  import opened Decimal
  import opened Outbox

  /** The fields of one XADD; Redis keeps every value as a string, and any may be missing. */
  datatype Entry = Entry(eventType: string, body: Option<Body>, outboxId: Option<string>)

  function EntryOf(id: nat, eventType: string, payload: Body): Entry {
    Entry(eventType, Some(payload), Some(FormatInt(id)))
  }

  function RowEntry(id: nat, row: Row): Entry {
    EntryOf(id, row.eventType, row.payload)
  }

  function EventEntry(ev: Event): Entry {
    EntryOf(ev.id, ev.eventType, ev.payload)
  }

  /** What handle reads out of an entry before it touches Redis. */
  function Decode(e: Entry): Option<int> {
    if e.body.None? || e.outboxId.None? then None else ParseInt64(e.outboxId.value)
  }

  /** The worker reads back the id the relay wrote. */
  lemma DecodeEntryOf(id: nat, eventType: string, payload: Body)
    requires id <= MAX_INT64
    ensures Decode(EntryOf(id, eventType, payload)) == Some(id)
  {
    ParseInt64RoundTrip(id);
  }
}
