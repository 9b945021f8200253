/** The window of the newest process epochs the diagnostics collector reports. */
module Epochs {
  const WINDOW: nat := 8                           // MAX_EPOCHS
  const UINT64_MAX: nat := 0xFFFF_FFFF_FFFF_FFFF

  datatype Epoch = Epoch(pid: int, start: nat, first: nat, sequence: nat)

  /** A saturating 64-bit count of `n` events. */
  function Saturated(n: nat): nat {
    if n < UINT64_MAX then n else UINT64_MAX
  }

  /** What has been added, in order: each epoch carries its own ordinal. */
  ghost predicate Numbered(all: seq<Epoch>) {
    forall i | 0 <= i < |all| :: all[i].sequence == Saturated(i + 1)
  }

  function Newest(all: seq<Epoch>): seq<Epoch> {
    if |all| <= WINDOW then all else all[|all| - WINDOW..]
  }

  class History {
    const epochs: array<Epoch>
    var count: nat
    var truncated: bool
    var dropped: nat
    var total: nat
    ghost var all: seq<Epoch>     // every epoch ever added

    constructor ()
      ensures Valid() && all == [] && fresh(epochs)
    {
      epochs := new Epoch[WINDOW](_ => Epoch(0, 0, 0, 0));
      count, truncated, dropped, total, all := 0, false, 0, 0, [];
    }

    /** The window holds the newest epochs in order, and the counters say what it has lost. */
    ghost predicate Valid()
      reads this, epochs
    {
      Windowed() && Numbered(all) && total == Saturated(|all|)
    }

    ghost predicate Windowed()
      reads this, epochs
    {
      && epochs.Length == WINDOW && count == (if |all| < WINDOW then |all| else WINDOW) &&
           epochs[..count] == Newest(all)
      && dropped == Saturated(|all| - count) && (truncated <==> |all| > count)
    }

    /** The memmove of add_epoch. */
    method Shift()
      requires epochs.Length == WINDOW
      modifies epochs
      ensures epochs[..WINDOW - 1] == old(epochs[1..])
    {
      forall i | 0 <= i < WINDOW - 1 { epochs[i] := epochs[i + 1]; }
    }

    /** The oldest epoch leaves a full window. */
    method MakeRoom()
      requires Windowed()
      modifies this`count, this`truncated, this`dropped, epochs
      ensures count == (if |all| < WINDOW then |all| else WINDOW - 1) && epochs[..count] == Kept(all)
      ensures dropped == Saturated(|all| - count) && (truncated <==> |all| > count)
    {
      if count == WINDOW {
        assert epochs[1..] == epochs[..count][1..] == Newest(all)[1..];
        Shift();
        count, truncated := count - 1, true;
        if dropped < UINT64_MAX { dropped := dropped + 1; }
      }
    }

    /** add_epoch, up to the verification it asks for. */
    method Add(pid: int, start: nat, elapsed: nat)
      requires Valid()
      modifies this, epochs
      ensures Valid() && all == old(all) + [Epoch(pid, start, elapsed, Saturated(|old(all)| + 1))]
    {
      if total < UINT64_MAX { total := total + 1; }
      var e := Epoch(pid, start, elapsed, total);
      NumberedMore(all, e);
      Enter(e);
    }

    method Enter(e: Epoch)
      requires Windowed()
      modifies this`count, this`truncated, this`dropped, this`all, epochs
      ensures Windowed() && all == old(all) + [e]
    {
      MakeRoom();
      NewestMore(all, e);
      Put(e);
      all := all + [e];
    }

    method Put(e: Epoch)
      requires epochs.Length == WINDOW && count < WINDOW
      modifies this`count, epochs
      ensures count == old(count) + 1 && epochs[..count] == old(epochs[..count]) + [e]
    {
      epochs[count] := e;
      count := count + 1;
    }
  }

  /** What stays of the window when another epoch comes. */
  function Kept(all: seq<Epoch>): seq<Epoch> {
    if |all| >= WINDOW then Newest(all)[1..] else Newest(all)
  }

  lemma NumberedMore(all: seq<Epoch>, e: Epoch)
    requires Numbered(all) && e.sequence == Saturated(|all| + 1)
    ensures Numbered(all + [e])
  {
  }

  lemma NewestMore(all: seq<Epoch>, e: Epoch)
    ensures Newest(all + [e]) == Kept(all) + [e]
  {
  }

  datatype Process = Process(pid: int, start: nat, elapsed: nat)

  function Recorded(p: Process, ordinal: nat): Epoch {
    Epoch(p.pid, p.start, p.elapsed, Saturated(ordinal))
  }

  ghost predicate Records(all: seq<Epoch>, added: seq<Process>) {
    |all| == |added| && forall i | 0 <= i < |all| :: all[i] == Recorded(added[i], i + 1)
  }

  lemma RecordsMore(all: seq<Epoch>, added: seq<Process>, k: nat)
    requires k < |added| && Records(all, added[..k])
    ensures Records(all + [Recorded(added[k], k + 1)], added[..k + 1])
  {
  }

  lemma WindowOf(all: seq<Epoch>, added: seq<Process>, i: nat)
    requires Records(all, added) && i < |Newest(all)|
    ensures var n := |all| - |Newest(all)| + i; Newest(all)[i] == Recorded(added[n], n + 1)
  {
  }

  lemma WholeWindow(all: seq<Epoch>, added: seq<Process>, window: seq<Epoch>, count: nat)
    requires Records(all, added) && count <= |window| && window[..count] == Newest(all)
    ensures forall i | 0 <= i < count :: window[i] == Recorded(added[|added| - count + i], |added| - count + i + 1)
  {
    forall i | 0 <= i < count
      ensures window[i] == Recorded(added[|added| - count + i], |added| - count + i + 1)
    {
      WindowOf(all, added, i);
      assert window[i] == window[..count][i];
    }
  }

  /** The loop of the next method. */
  method AddAll(added: seq<Process>) returns (h: History)
    ensures h.Valid() && Records(h.all, added)
  {
    h := new History();
    var k := 0;
    while k < |added|
      invariant 0 <= k <= |added| && fresh(h) && fresh(h.epochs) && h.Valid() && Records(h.all, added[..k])
    {
      ghost var before := h.all;
      RecordsMore(before, added, k);
      h.Add(added[k].pid, added[k].start, added[k].elapsed);
      assert h.all == before + [Recorded(added[k], k + 1)];
      k := k + 1;
    }
    assert added[..k] == added;
  }

  /** After any number of epochs the window holds exactly the last ones, with consecutive numbers up to the
      total, and nothing is lost without being counted. */
  method Run(added: seq<Process>) returns (h: History)
    ensures h.epochs.Length == WINDOW && h.count == (if |added| < WINDOW then |added| else WINDOW)
    ensures h.total == Saturated(|added|) && h.dropped == Saturated(|added| - h.count)
    ensures h.truncated <==> |added| > WINDOW
    ensures forall i | 0 <= i < h.count ::
              h.epochs[i] == Recorded(added[|added| - h.count + i], |added| - h.count + i + 1)
  {
    h := AddAll(added);
    assert h.epochs[..][..h.count] == h.epochs[..h.count];
    WholeWindow(h.all, added, h.epochs[..], h.count);
  }
}
