/** The stream collector of the processor observer: a ring of the newest 512 tickets, overwritten while it
    is being read, from which every ticket must be reported once, as a record or inside a gap. */
module Collector {
  const RING: nat := 512                        // PROCESSOR_OBSERVATIONS
  const LAST_TICKET: nat := 0xFFFF_FFFE         // processor_publish stops here, so no counter wraps

  datatype Reason = RetentionAdvanced | CollectorEnd

  datatype Line = Record(ticket: nat) | Gap(first: nat, last: nat, reason: Reason) | Status

  predicate Tells(line: Line, t: nat) {
    match line
    case Record(ticket) => t == ticket
    case Gap(first, last, _) => first <= t <= last
    case Status => false
  }

  /** How many lines account for ticket `t`. */
  ghost function Times(out: seq<Line>, t: nat): nat {
    if out == [] then 0
    else Times(out[..|out| - 1], t) + if Tells(out[|out| - 1], t) then 1 else 0
  }

  lemma TimesAppend(out: seq<Line>, line: Line, t: nat)
    ensures Times(out + [line], t) == Times(out, t) + if Tells(line, t) then 1 else 0
  {
    assert (out + [line])[..|out|] == out;
  }

  lemma TimesGap(out: seq<Line>, first: nat, last: nat, reason: Reason)
    ensures forall t: nat ::
            Times(out + [Gap(first, last, reason)], t) == Times(out, t) + if first <= t <= last then 1 else 0
  {
    forall t: nat
      ensures Times(out + [Gap(first, last, reason)], t) == Times(out, t) + if first <= t <= last then 1 else 0
    {
      TimesAppend(out, Gap(first, last, reason), t);
    }
  }

  lemma TimesRecord(out: seq<Line>, ticket: nat)
    ensures forall t: nat :: Times(out + [Record(ticket)], t) == Times(out, t) + if t == ticket then 1 else 0
  {
    forall t: nat
      ensures Times(out + [Record(ticket)], t) == Times(out, t) + if t == ticket then 1 else 0
    {
      TimesAppend(out, Record(ticket), t);
    }
  }

  function Cell(t: nat): nat
    requires t > 0
  {
    (t - 1) % RING
  }

  function Low(count: nat): nat {
    if count > RING then count - RING + 1 else 1
  }

  predicate Seen(seen: seq<nat>, t: nat) {
    t > 0 && |seen| == RING && seen[Cell(t)] == t
  }

  /** Tickets below `upto` are reported once; of the others, exactly the seen ones. */
  ghost predicate Accounted(out: seq<Line>, upto: nat, seen: seq<nat>) {
    forall t: nat :: Times(out, t) == if 0 < t < upto || Seen(seen, t) then 1 else 0
  }

  /** What the ring remembers lies within the tickets counted so far. */
  ghost predicate SeenWithin(seen: seq<nat>, count: nat) {
    |seen| == RING && forall i | 0 <= i < RING :: seen[i] <= count && (seen[i] > 0 ==> Cell(seen[i]) == i)
  }

  /** A ticket of the ring is recorded and remembered; the older ticket of its cell has left the ring. */
  lemma SawNew(seen: seq<nat>, out: seq<Line>, floor: nat, count: nat, t: nat)
    requires floor == Low(count) && SeenWithin(seen, count) && Accounted(out, floor, seen)
    requires floor <= t <= count && seen[Cell(t)] != t
    ensures var after := seen[Cell(t) := t];
            && SeenWithin(after, count) && Accounted(out + [Record(t)], floor, after)
            && (forall u | floor <= u <= count :: Seen(after, u) <==> Seen(seen, u) || u == t)
    ensures forall u: nat :: Times(out + [Record(t)], u) <= 1
  {
    TimesRecord(out, t);
    var after := seen[Cell(t) := t];
    assert after[Cell(t)] == t;
    forall u: nat | floor <= u <= count && u != t
      ensures Cell(u) != Cell(t)
    {
      OneCellEach(count, t, u);
    }
  }

  lemma OneCellEach(count: nat, t: nat, u: nat)
    requires Low(count) <= t <= count && Low(count) <= u <= count && t != u
    ensures Cell(t) != Cell(u)
  {
  }

  /** Every ticket up to `count` is reported exactly once, and no other. */
  ghost predicate Partitions(out: seq<Line>, count: nat) {
    forall t: nat :: Times(out, t) == if 0 < t <= count then 1 else 0
  }

  class Cursor {
    var floor: nat
    const seen: array<nat>
    var out: seq<Line>

    constructor ()
      ensures floor == 0 && out == [] && fresh(seen) && Valid(0)
    {
      floor := 0;
      seen := new nat[RING](_ => 0);
      out := [];
    }

    /** After a poll that found `count` tickets. */
    ghost predicate Valid(count: nat)
      reads this, seen
    {
      && seen.Length == RING && SeenWithin(seen[..], count)
      && floor == (if floor == 0 then 0 else Low(count)) && (floor == 0 ==> count == 0)
      && Accounted(out, floor, seen[..])
    }

    /** processor_gap */
    method Gap(first: nat, last: nat, reason: Reason)
      modifies this`out
      ensures forall t: nat :: Times(out, t) == Times(old(out), t) + if first <= t <= last then 1 else 0
    {
      TimesGap(out, first, last, reason);
      if first <= last { out := out + [Line.Gap(first, last, reason)]; }
    }

    /** The scan for runs of unseen tickets; the run still open at the end starts at `first`. */
    method Gaps(from: nat, to: nat, reason: Reason) returns (first: nat)
      requires 0 < from <= to + 1 && seen.Length == RING && Accounted(out, from, seen[..])
      modifies this`out
      ensures first == 0 || from <= first <= to
      ensures Accounted(out, if first == 0 then to + 1 else first, seen[..])
      ensures forall t | first != 0 && first <= t <= to :: !Seen(seen[..], t)
    {
      first := 0;
      var t := from;
      while t <= to
        invariant from <= t <= to + 1 && (first == 0 || from <= first < t)
        invariant Accounted(out, if first == 0 then t else first, seen[..])
        invariant forall u | first != 0 && first <= u < t :: !Seen(seen[..], u)
      {
        if seen[Cell(t)] != t {
          if first == 0 { first := t; }
        } else if first != 0 {
          Gap(first, t - 1, reason);
          first := 0;
        }
        t := t + 1;
      }
    }

    /** The first part of processor_collect: tickets that have left the ring unseen. */
    method Advance(before: nat, count: nat)
      requires Valid(before) && floor != 0 && before <= count && floor < Low(count)
      modifies this
      ensures floor == Low(count) && Accounted(out, floor, seen[..]) && seen.Length == RING
    {
      var end := Low(count) - 1;
      var scan := if end - floor >= RING then floor + RING - 1 else end;
      var first := Gaps(floor, scan, RetentionAdvanced);
      forall t | scan < t <= end
        ensures !Seen(seen[..], t)
      {
        assert Seen(seen[..], t) ==> t <= before;
      }
      if first != 0 { Gap(first, end, RetentionAdvanced); }
      else if scan < end { Gap(scan + 1, end, RetentionAdvanced); }
      floor := Low(count);
    }

    /** The second part: the tickets in the ring that can be read now.  `readable` answers processor_read,
        `fails` whether writing that ticket's line breaks the output. */
    method Records(count: nat, readable: nat -> bool, fails: nat -> bool) returns (ok: bool)
      requires floor == Low(count) && seen.Length == RING && SeenWithin(seen[..], count) &&
               Accounted(out, floor, seen[..])
      modifies this`out, seen
      ensures ok ==> SeenWithin(seen[..], count) && Accounted(out, floor, seen[..])
      ensures ok ==> forall t | floor <= t <= count :: Seen(seen[..], t) <==> Seen(old(seen[..]), t) || readable(t)
      ensures !ok ==> forall t: nat :: Times(out, t) <= 1
    {
      ok := true;
      var t: nat := floor;
      while t <= count
        invariant floor <= t <= count + 1 && SeenWithin(seen[..], count) && Accounted(out, floor, seen[..])
        invariant forall u | floor <= u <= count ::
                    Seen(seen[..], u) <==> Seen(old(seen[..]), u) || (u < t && readable(u))
      {
        if seen[Cell(t)] != t && readable(t) {
          SawNew(seen[..], out, floor, count, t);
          out := out + [Record(t)];
          if fails(t) { return false; }
          ghost var before := seen[..];
          seen[Cell(t)] := t;
          assert seen[..] == before[Cell(t) := t];
        }
        t := t + 1;
      }
    }

    /** processor_collect: everything is accounted for up to the ring, and to the end in the final call. */
    method Collect(before: nat, count: nat, readable: nat -> bool, fails: nat -> bool, final: bool) returns (ok: bool)
      requires Valid(before) && before <= count <= LAST_TICKET
      modifies this, seen
      ensures ok && !final ==> Valid(count) && floor != 0
      ensures ok && !final ==>
              forall t | floor <= t <= count :: Seen(seen[..], t) <==> Seen(old(seen[..]), t) || readable(t)
      ensures ok && final ==> Partitions(out, count)
      ensures !ok ==> forall t: nat :: Times(out, t) <= 1
    {
      if floor == 0 { floor := 1; }
      if floor < Low(count) { Advance(before, count); }
      assert forall i | 0 <= i < RING :: seen[..][i] <= count;
      ok := Records(count, readable, fails);
      if ok && final {
        var first := Gaps(floor, count, CollectorEnd);
        if first != 0 { Gap(first, count, CollectorEnd); }
        forall t: nat
          ensures Times(out + [Status], t) == Times(out, t)
        {
          TimesAppend(out, Status, t);
        }
        assert forall t: nat | t > count :: !Seen(seen[..], t);
        out := out + [Status];
      }
    }
  }

  // ---------------------------------------------------------------- the whole stream

  /** One poll: the counter as loaded, and which tickets could be read and written. */
  datatype Poll = Poll(count: nat, readable: nat -> bool, fails: nat -> bool)

  ghost predicate Ordered(polls: seq<Poll>) {
    && (forall i | 0 <= i < |polls| :: polls[i].count <= LAST_TICKET)
    && (forall i, j | 0 <= i < j < |polls| :: polls[i].count <= polls[j].count)
  }

  /** processor_stream: any number of polls, then one final call.  However the counter advances and
      whatever could be read, every ticket that was ever issued is in exactly one record or one gap; if
      the output breaks on the way, still none is reported twice. */
  method Stream(polls: seq<Poll>) returns (out: seq<Line>, ok: bool)
    requires polls != [] && Ordered(polls)
    ensures ok ==> Partitions(out, polls[|polls| - 1].count)
    ensures !ok ==> forall t: nat :: Times(out, t) <= 1
  {
    var cursor := new Cursor();
    var i, before := 0, 0;
    while i < |polls| - 1
      invariant 0 <= i < |polls| && fresh(cursor) && fresh(cursor.seen) && cursor.Valid(before)
      invariant before == if i == 0 then 0 else polls[i - 1].count
    {
      ok := cursor.Collect(before, polls[i].count, polls[i].readable, polls[i].fails, false);
      if !ok { return cursor.out, false; }
      before := polls[i].count;
      i := i + 1;
    }
    ok := cursor.Collect(before, polls[i].count, polls[i].readable, polls[i].fails, true);
    out := cursor.out;
  }

  // ---------------------------------------------------------------- what the count means

  lemma {:induction false} TimesOfNone(out: seq<Line>, t: nat)
    requires forall i | 0 <= i < |out| :: !Tells(out[i], t)
    ensures Times(out, t) == 0
  {
    if out != [] { TimesOfNone(out[..|out| - 1], t); }
  }

  lemma {:induction false} TimesOfSome(out: seq<Line>, t: nat, i: nat)
    requires i < |out| && Tells(out[i], t)
    ensures Times(out, t) >= 1
    ensures Times(out, t) == 1 ==> forall j | 0 <= j < |out| && Tells(out[j], t) :: j == i
  {
    var n := |out| - 1;
    if i < n {
      TimesOfSome(out[..n], t, i);
      forall j | 0 <= j < |out| && Tells(out[j], t) && Times(out, t) == 1
        ensures j == i
      {
        assert j < n ==> Tells(out[..n][j], t);
      }
    } else {
      forall j | 0 <= j < n && Tells(out[j], t)
        ensures Times(out, t) > 1
      {
        TimesOfSome(out[..n], t, j);
      }
    }
  }

  /** A partition in so many words: one line for every ticket, none shared, and nothing else reported. */
  lemma PartitionMeans(out: seq<Line>, count: nat, t: nat)
    requires Partitions(out, count)
    ensures 0 < t <= count <==> exists i :: 0 <= i < |out| && Tells(out[i], t)
    ensures forall i, j | 0 <= i < |out| && 0 <= j < |out| && Tells(out[i], t) && Tells(out[j], t) :: i == j
  {
    if i: nat :| i < |out| && Tells(out[i], t) {
      TimesOfSome(out, t, i);
    } else {
      TimesOfNone(out, t);
    }
  }
}
