/** The 16-slot broadcast channel: one growing log, and receivers that lose the oldest entries
    when they fall behind. */
module Broadcast {
  import opened Base

  const CAPACITY: nat := 16

  /** A receiver: where it was created, the next entry it will look at, and the entries it has
      delivered, as positions in the log. */
  datatype Receiver = Receiver(start: nat, cursor: nat, seen: seq<nat>)

  function Subscribed(length: nat): Receiver {
    Receiver(length, length, [])
  }

  /** One `recv` on a log of the given length: a lagging receiver delivers nothing and moves to
      the oldest entry still held; a drained one waits. */
  function Received(r: Receiver, length: nat): Receiver {
    if r.cursor + CAPACITY < length then r.(cursor := length - CAPACITY)
    else if r.cursor < length then r.(cursor := r.cursor + 1, seen := r.seen + [r.cursor])
    else r
  }

  /** A receiver at most 16 entries behind gets the one at its cursor and skips nothing; one further
      behind moves to the 16th newest; a drained one waits. */
  lemma ReceivedExactly(r: Receiver, length: nat)
    requires r.cursor <= length
    ensures Received(r, length) ==
            if r.cursor == length then r
            else if length - r.cursor <= 16 then Receiver(r.start, r.cursor + 1, r.seen + [r.cursor])
            else Receiver(r.start, length - 16, r.seen)
    ensures Lost(r, length) == if length - r.cursor <= 16 then 0 else length - r.cursor - 16
  {
  }

  predicate Drained(r: Receiver, length: nat) {
    r.cursor == length
  }

  /** Delivered entries are in order, without duplicates, all from after the subscription; and
      the entry just before the cursor has been delivered unless more are waiting. */
  ghost predicate Faithful(r: Receiver, length: nat) {
    && r.start <= r.cursor <= length
    && (forall i | 0 <= i < |r.seen| :: r.start <= r.seen[i] < r.cursor)
    && (forall i, j | 0 <= i < j < |r.seen| :: r.seen[i] < r.seen[j])
    && (r.cursor < length
        || (if r.seen == [] then r.cursor == r.start else Last(r.seen) == r.cursor - 1))
  }

  lemma SubscribedFaithful(length: nat)
    ensures Faithful(Subscribed(length), length)
  {
  }

  lemma ReceivedFaithful(r: Receiver, length: nat)
    requires Faithful(r, length)
    ensures Faithful(Received(r, length), length)
  {
  }

  /** Sends in between keep it so. */
  lemma LongerFaithful(r: Receiver, length: nat, longer: nat)
    requires Faithful(r, length) && length <= longer
    ensures Faithful(r, longer)
  {
  }

  /** `n` receives in a row. */
  function ReceivedTimes(r: Receiver, length: nat, n: nat): Receiver
    decreases n
  {
    if n == 0 then r else ReceivedTimes(Received(r, length), length, n - 1)
  }

  /** The positions from `low` up to `high`. */
  function Range(low: nat, high: nat): (r: seq<nat>)
    requires low <= high
    ensures |r| == high - low
    ensures forall i | 0 <= i < |r| :: r[i] == low + i
    decreases high - low
  {
    if low == high then [] else [low] + Range(low + 1, high)
  }

  lemma {:induction false} RangeOneMore(low: nat, high: nat)
    requires low <= high
    ensures Range(low, high + 1) == Range(low, high) + [high]
  {
    assert forall i | 0 <= i <= high - low :: Range(low, high + 1)[i] == (Range(low, high) + [high])[i];
  }

  /** The oldest entry a receiver can still get. */
  function Oldest(r: Receiver, length: nat): nat {
    if r.cursor + CAPACITY < length then length - CAPACITY else r.cursor
  }

  /** However far behind, at most 17 receives drain the channel, and they deliver exactly the
      waiting entries among the newest 16, in order. */
  lemma DrainsExactly(r: Receiver, length: nat)
    requires r.cursor <= length
    ensures var low := if length - r.cursor <= 16 then r.cursor else length - 16;
            exists n: nat :: n <= 17 &&
              ReceivedTimes(r, length, n) == Receiver(r.start, length, r.seen + Range(low, length))
  {
    var first := Oldest(r, length);
    if r.cursor < first {
      DrainsWithin(Received(r, length), length);
      assert ReceivedTimes(r, length, CAPACITY + 1) == ReceivedTimes(Received(r, length), length, CAPACITY);
    } else {
      DrainsWithin(r, length);
    }
  }

  lemma {:induction false} DrainsWithin(r: Receiver, length: nat)
    requires r.cursor <= length && length - r.cursor <= CAPACITY
    ensures ReceivedTimes(r, length, length - r.cursor) ==
            Receiver(r.start, length, r.seen + Range(r.cursor, length))
    decreases length - r.cursor
  {
    if r.cursor < length {
      DrainsWithin(Received(r, length), length);
      assert r.seen + Range(r.cursor, length) == (r.seen + [r.cursor]) + Range(r.cursor + 1, length);
    } else {
      assert r.seen + Range(r.cursor, length) == r.seen;
    }
  }

  /** The waiting entries that the next receive skips. */
  function Lost(r: Receiver, length: nat): nat {
    Oldest(r, length) - r.cursor
  }

  /** Every entry between subscription and cursor has been delivered or is one of the `n` skipped;
      with none skipped, all have been delivered in order. */
  ghost predicate Accounted(r: Receiver, n: nat) {
    && r.start <= r.cursor && |r.seen| + n == r.cursor - r.start
    && (n == 0 ==> r.seen == Range(r.start, r.cursor))
  }

  lemma ReceivedAccounted(r: Receiver, length: nat, n: nat)
    requires Accounted(r, n) && r.cursor <= length
    ensures Accounted(Received(r, length), n + Lost(r, length))
  {
    hide Range;
    RangeOneMore(r.start, r.cursor);
  }
}
