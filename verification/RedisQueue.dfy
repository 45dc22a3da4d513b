/** The pipelined, non-atomic append to the Redis stream. */
module RedisQueue {
  import opened Common
  import opened Decimal
  import opened Outbox
  import opened Stream

  datatype Item = Item(eventType: string, payload: Body, outboxId: nat)

  /** The pipeline's answer: every command executed, or an error and any of them executed. */
  datatype PipeResult = AllExecuted | Failed(executed: set<nat>)

  function ItemEntry(it: Item): Entry {
    EntryOf(it.outboxId, it.eventType, it.payload)
  }

  function Entries(items: seq<Item>): seq<Entry> {
    seq(|items|, i requires 0 <= i < |items| => ItemEntry(items[i]))
  }

  /** The commands whose index is in `kept`, in order. */
  function Kept(cmds: seq<Entry>, kept: set<nat>): seq<Entry> {
    if cmds == [] then []
    else
      var last := |cmds| - 1;
      Kept(cmds[..last], kept) + if last in kept then [cmds[last]] else []
  }

  lemma {:induction false} KeptAreCommands(cmds: seq<Entry>, kept: set<nat>)
    ensures forall e :: e in Kept(cmds, kept) ==> e in cmds
    ensures (forall i :: 0 <= i < |cmds| ==> i in kept) ==> Kept(cmds, kept) == cmds
  {
    if cmds != [] {
      var last := |cmds| - 1;
      KeptAreCommands(cmds[..last], kept);
      assert cmds == cmds[..last] + [cmds[last]];
    }
  }

  /** The kept entries are the executed commands, once each and in order. */
  lemma {:induction false} KeptIsSubsequence(cmds: seq<Entry>, kept: set<nat>) returns (at: seq<nat>)
    ensures |at| == |Kept(cmds, kept)|
    ensures forall j :: 0 <= j < |at| ==> at[j] < |cmds| && Kept(cmds, kept)[j] == cmds[at[j]]
    ensures forall i, j :: 0 <= i < j < |at| ==> at[i] < at[j]
    ensures forall i :: 0 <= i < |cmds| ==> (i in at <==> i in kept)
    decreases |cmds|
  {
    at := [];
    if cmds != [] {
      var last := |cmds| - 1;
      at := KeptIsSubsequence(cmds[..last], kept);
      forall i | i in at ensures i < last { }
      if last in kept { at := at + [last]; }
    }
  }

  class RedisQueue {
    var stream: seq<Entry>

    constructor ()
      ensures stream == []
    {
      stream := [];
    }

    method EnqueueBatch(items: seq<Item>, result: PipeResult) returns (err: Option<Error>)
      modifies this
      ensures err.None? <==> items == [] || result.AllExecuted?
      ensures stream == old(stream) +
        if items == [] || result.AllExecuted? then Entries(items) else Kept(Entries(items), result.executed)
      ensures err.None? ==> |stream| == |old(stream)| + |items| && forall i :: 0 <= i < |items| ==>
        stream[|old(stream)| + i] ==
          Entry(items[i].eventType, Some(items[i].payload), Some(FormatInt(items[i].outboxId)))
    {
      if |items| == 0 { return None; }
      var cmds: seq<Entry> := [];
      for i := 0 to |items|
        invariant cmds == Entries(items)[..i]
      {
        cmds := cmds + [ItemEntry(items[i])];
      }
      assert cmds == Entries(items);
      match result
      case AllExecuted =>
        stream := stream + cmds;
        return None;
      case Failed(executed) =>
        stream := stream + Kept(cmds, executed);
        return Some(PushFailed);
    }
  }
}
