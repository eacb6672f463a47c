/**
 The job broadcast channel: a ring of the last 16 messages with one cursor per receiver. A
 receiver that fell behind is told how many messages it lost and continues at the oldest one kept.
 */
module Broadcast {
  import opened Sequences

  const CAPACITY: nat := 16

  datatype Ring<T> = Ring(slots: seq<T>, sent: nat)
  {
    predicate Valid() {
      |slots| <= CAPACITY && |slots| <= sent
    }

    /** The position of the oldest message kept. */
    function Oldest(): nat
      requires Valid()
    {
      sent - |slots|
    }
  }

  datatype Received<T> = Empty | Lagged(skipped: nat) | Item(value: T)

  function Send<T>(r: Ring<T>, x: T): Ring<T> {
    Ring((if |r.slots| >= CAPACITY then r.slots[1..] else r.slots) + [x], r.sent + 1)
  }

  /** One receive: what it returns and where the cursor moves. */
  function Receive<T>(r: Ring<T>, cursor: nat): (Received<T>, nat)
    requires r.Valid() && cursor <= r.sent
  {
    if cursor < r.Oldest() then (Lagged(r.Oldest() - cursor), r.Oldest())
    else if cursor == r.sent then (Empty, cursor)
    else (Item(r.slots[cursor - r.Oldest()]), cursor + 1)
  }

  /** The ring that holds the end of a full history. */
  function RingOf<T>(log: seq<T>): (r: Ring<T>)
    ensures r.Valid() && r.sent == |log|
  {
    Ring(LastN(log, CAPACITY), |log|)
  }

  lemma SendAppends<T>(log: seq<T>, x: T)
    ensures Send(RingOf(log), x) == RingOf(log + [x])
  {
    LastNSnoc(log, CAPACITY, x);
  }

  /** What is received is the message of the full history at the cursor; only what is more than 16 back is lost. */
  lemma ReceiveReadsHistory<T>(log: seq<T>, cursor: nat)
    requires cursor <= |log|
    ensures var (got, next) := Receive(RingOf(log), cursor);
            && (cursor + 16 < |log| <==> got.Lagged?)
            && (got.Lagged? ==> next == |log| - 16 && got.skipped == next - cursor)
            && (got.Empty? <==> cursor == |log|)
            && (got.Empty? ==> next == cursor)
            && (got.Item? ==> got.value == log[cursor] && next == cursor + 1)
  {
  }

  /** How many receives reach the newest message. */
  function Owed<T>(r: Ring<T>, cursor: nat): nat
    requires r.Valid() && cursor <= r.sent
  {
    if cursor < r.Oldest() then |r.slots| + 1 else r.sent - cursor
  }

  /** Every receive brings the receiver nearer, at most 17 are owed, and the last one delivers the newest message. */
  lemma ReceiveOwesLess<T>(log: seq<T>, cursor: nat)
    requires cursor <= |log|
    ensures var r := RingOf(log);
            var (got, next) := Receive(r, cursor);
            && next <= |log|
            && Owed(r, cursor) <= 17
            && (Owed(r, cursor) > 0 ==> Owed(r, next) == Owed(r, cursor) - 1)
            && (Owed(r, cursor) == 0 ==> got == Empty)
            && (Owed(r, cursor) == 1 ==> got == Item(log[|log| - 1]))
  {
    ReceiveReadsHistory(log, cursor);
  }
}
