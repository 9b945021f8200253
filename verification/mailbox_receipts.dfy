/** What one lane's log can say about a queued call: read event by event, it shows how far the call has
    come, and a finished reading is a complete causal triple. */
module MailboxReceipts {
  import opened Mailbox

  /** How far one queued call has come, by the log of the thread that carried it. */
  datatype Chain = Nothing | Entered(capture: nat) | Ran(capture: nat) | Finished(capture: nat) | Broken

  function Next(c: Chain, e: Event, id: nat, bits: nat): Chain {
    match e.kind
    case Queue => if c.Nothing? && e.request == id && e.bits == bits then Entered(e.capture) else Broken
    case Body => if c == Entered(e.capture) && e.request == id && e.bits == bits then Ran(e.capture) else Broken
    case Commit => if c == Ran(e.capture) && e.request == id then c else Broken
    case Done => if c == Ran(e.capture) && e.request == id && e.bits == bits then Finished(e.capture) else Broken
    case _ => c
  }

  function ChainOf(events: seq<Event>, id: nat, bits: nat): Chain {
    if events == [] then Nothing
    else Next(ChainOf(events[..|events| - 1], id, bits), events[|events| - 1], id, bits)
  }

  lemma ChainAppend(events: seq<Event>, e: Event, id: nat, bits: nat)
    ensures ChainOf(events + [e], id, bits) == Next(ChainOf(events, id, bits), e, id, bits)
  {
    assert (events + [e])[..|events|] == events;
  }

  /** A complete triple: one queue entry, then its body, then its completion, all with one capture and the
      dispatched value; no second one of any of the three; linked commits only between body and completion. */
  ghost predicate Triple(events: seq<Event>, id: nat, bits: nat, q: nat, b: nat, d: nat) {
    && q < b < d < |events|
    && events[q] == Event(Queue, id, events[q].capture, bits)
    && events[b] == Event(Body, id, events[q].capture, bits)
    && events[d] == Event(Done, id, events[q].capture, bits)
    && forall i | 0 <= i < |events| ::
         && (events[i].kind == Queue ==> i == q) && (events[i].kind == Body ==> i == b) &&
              (events[i].kind == Done ==> i == d)
         && (events[i].kind == Commit ==>
              b < i < d && events[i].request == id && events[i].capture == events[q].capture)
  }

  /** Nothing of a queued call. */
  predicate Neutral(e: Event) {
    e.kind !in {Queue, Body, Commit, Done}
  }

  /** The log of a call that entered the queue and may have reached its body. */
  ghost predicate Begun(events: seq<Event>, id: nat, bits: nat, capture: nat, q: nat) {
    && q < |events| && events[q] == Event(Queue, id, capture, bits)
    && forall i | 0 <= i < |events| && i != q :: Neutral(events[i])
  }

  ghost predicate UnderWay(events: seq<Event>, id: nat, bits: nat, capture: nat, q: nat, b: nat) {
    && q < b < |events| && events[q] == Event(Queue, id, capture, bits) && events[b] == Event(Body, id, capture, bits)
    && forall i | 0 <= i < |events| && i != q && i != b ::
         Neutral(events[i]) ||
           (events[i].kind == Commit && b < i && events[i].request == id && events[i].capture == capture)
  }

  ghost predicate Ended(events: seq<Event>, id: nat, bits: nat, capture: nat, q: nat, b: nat, d: nat) {
    Triple(events, id, bits, q, b, d) && events[q].capture == capture
  }

  ghost predicate Shows(events: seq<Event>, id: nat, bits: nat, c: Chain) {
    match c
    case Nothing => forall i | 0 <= i < |events| :: Neutral(events[i])
    case Entered(k) => exists q: nat :: Begun(events, id, bits, k, q)
    case Ran(k) => exists q: nat, b: nat :: UnderWay(events, id, bits, k, q, b)
    case Finished(k) => exists q: nat, b: nat, d: nat :: Ended(events, id, bits, k, q, b, d)
    case Broken => true
  }

  lemma ShowsQueue(events: seq<Event>, e: Event, id: nat, bits: nat)
    requires (forall i | 0 <= i < |events| :: Neutral(events[i])) && e == Event(Queue, id, e.capture, bits)
    ensures Begun(events + [e], id, bits, e.capture, |events|)
  {
  }

  lemma ShowsBody(events: seq<Event>, e: Event, id: nat, bits: nat, k: nat, q: nat)
    requires Begun(events, id, bits, k, q) && e == Event(Body, id, k, bits)
    ensures UnderWay(events + [e], id, bits, k, q, |events|)
  {
  }

  lemma ShowsDone(events: seq<Event>, e: Event, id: nat, bits: nat, k: nat, q: nat, b: nat)
    requires UnderWay(events, id, bits, k, q, b) && e == Event(Done, id, k, bits)
    ensures Ended(events + [e], id, bits, k, q, b, |events|)
  {
  }

  /** An event that adds nothing to the call leaves its shape as it is. */
  lemma ShowsMore(events: seq<Event>, e: Event, id: nat, bits: nat, c: Chain)
    requires Shows(events, id, bits, c) && (Neutral(e) || (e.kind == Commit && c == Ran(e.capture) && e.request == id))
    ensures Shows(events + [e], id, bits, c)
  {
    var all := events + [e];
    match c
    case Nothing =>
    case Entered(k) =>
      var q: nat :| Begun(events, id, bits, k, q);
      assert Begun(all, id, bits, k, q);
    case Ran(k) =>
      var q: nat, b: nat :| UnderWay(events, id, bits, k, q, b);
      assert UnderWay(all, id, bits, k, q, b);
    case Finished(k) =>
      var q: nat, b: nat, d: nat :| Ended(events, id, bits, k, q, b, d);
      assert Ended(all, id, bits, k, q, b, d);
    case Broken =>
  }

  lemma ShowsNext(events: seq<Event>, e: Event, id: nat, bits: nat, c: Chain)
    requires Shows(events, id, bits, c)
    ensures Shows(events + [e], id, bits, Next(c, e, id, bits))
  {
    var c' := Next(c, e, id, bits);
    if c' == c && c != Broken { ShowsMore(events, e, id, bits, c); }
    else if c'.Entered? { ShowsQueue(events, e, id, bits); }
    else if c'.Ran? {
      var q: nat :| Begun(events, id, bits, e.capture, q);
      ShowsBody(events, e, id, bits, e.capture, q);
    } else if c'.Finished? {
      var q: nat, b: nat :| UnderWay(events, id, bits, e.capture, q, b);
      ShowsDone(events, e, id, bits, e.capture, q, b);
    }
  }

  /** Reading a log event by event finds exactly these shapes. */
  lemma {:induction false} ChainShows(events: seq<Event>, id: nat, bits: nat)
    ensures Shows(events, id, bits, ChainOf(events, id, bits))
  {
    if events != [] {
      var n := |events| - 1;
      ChainShows(events[..n], id, bits);
      ShowsNext(events[..n], events[n], id, bits, ChainOf(events[..n], id, bits));
      assert events[..n] + [events[n]] == events;
    }
  }
}
