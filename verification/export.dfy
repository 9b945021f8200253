/** The pin-once export of the diagnostics collector: the admission of one USB destination and the report
    writes of the main loop, over whole runs. */
module Export {
  const SCAN_INTERVAL: nat := 1000
  const WRITE_INTERVAL: nat := 1000                // USB_WRITE_INTERVAL_MS
  const UINT64_MAX: nat := 0xFFFF_FFFF_FFFF_FFFF

  /** A mounted candidate; `marked` when it already carries the marker directory. */
  datatype Destination = Destination(id: nat, marked: bool)

  datatype Admission = Failed | Absent | Ready(dest: Destination) | Ambiguous

  /** What the calls inside atomic_external return, in order. */
  datatype Stages = Stages(current: bool, cleared: bool, open: bool, written: bool, synced: bool, closed: bool,
                           stillCurrent: bool, renamed: bool, directorySynced: bool)

  /** A report put in place on a destination at some time. */
  datatype Report = Report(dest: Destination, time: nat)

  /** One turn of the main loop: the clock at its top and after poll, and what the outside world answers.
      No candidates is a failed discovery. */
  datatype Turn = Turn(
    now: nat, candidates: seq<Destination>, created: bool, cleared: bool, current: bool,
    changed: bool, later: nat, changedLater: bool, internal: bool, stages: Stages)

  function Marked(c: seq<Destination>): seq<Destination> {
    if c == [] then []
    else Marked(c[..|c| - 1]) + if c[|c| - 1].marked then [c[|c| - 1]] else []
  }

  /** Which destination may be pinned: the one marked candidate, or an only candidate that can be marked. */
  predicate Pinnable(c: seq<Destination>, created: bool, d: Destination) {
    if Marked(c) == [] then |c| == 1 && created && d == c[0].(marked := true)
    else Marked(c) == [d]
  }

  /** Reports are at least the interval apart. */
  ghost predicate Spaced(reports: seq<Report>) {
    forall i, j | 0 <= i < j < |reports| :: reports[i].time + WRITE_INTERVAL <= reports[j].time
  }

  /** Every report went to the pinned destination; the last one set `lastExternal`, unless it failed late. */
  ghost predicate Logged(reports: seq<Report>, dest: Destination, lastExternal: nat, valid: bool, clock: nat) {
    && (forall i | 0 <= i < |reports| :: reports[i].dest == dest && 0 < reports[i].time <= clock)
    && Spaced(reports) && lastExternal <= clock
    && (valid && reports != [] ==> lastExternal == reports[|reports| - 1].time)
    && (reports == [] ==> lastExternal == 0)
  }

  lemma LoggedLater(reports: seq<Report>, dest: Destination, lastExternal: nat, valid: bool, clock: nat, later: nat,
      still: bool)
    requires Logged(reports, dest, lastExternal, valid, clock) && clock <= later && (still ==> valid)
    ensures Logged(reports, dest, lastExternal, still, later)
  {
  }

  lemma LoggedMore(reports: seq<Report>, dest: Destination, lastExternal: nat, clock: nat, ok: bool)
    requires Logged(reports, dest, lastExternal, true, clock) && clock > 0
    requires lastExternal == 0 || clock - lastExternal >= WRITE_INTERVAL
    ensures Logged(reports + [Report(dest, clock)], dest, if ok then clock else lastExternal, ok, clock)
  {
  }

  class Collector {
    var admitted: bool
    var dest: Destination
    var exportValid: bool
    var exportInvalidated: bool
    var everAbsent: bool
    var everAmbiguous: bool
    var dirty: bool
    var dirtySince: nat
    var nextScan: nat
    var lastSnapshot: nat
    var lastExternal: nat
    var replacements: nat
    ghost var clock: nat
    ghost var attempts: nat              // calls of create_marker
    ghost var pinned: seq<Destination>   // every destination ever admitted
    ghost var reports: seq<Report>       // every report ever put in place outside
    ghost var frozen: nat                // how many there were when the export was invalidated

    /** Start of main; the clock is positive. */
    constructor (begun: nat)
      requires begun > 0
      ensures Valid() && clock == begun && reports == [] && pinned == [] && attempts == 0
    {
      admitted, dest, exportValid, exportInvalidated := false, Destination(0, false), true, false;
      everAbsent, everAmbiguous, dirty, dirtySince, nextScan := false, false, true, begun, begun;
      lastSnapshot, lastExternal, replacements := 0, 0, 0;
      clock, attempts, pinned, reports, frozen := begun, 0, [], [], 0;
    }

    ghost predicate Valid()
      reads this
    {
      && clock > 0 && lastSnapshot <= clock
      && exportValid == !exportInvalidated
      && pinned == (if admitted then [dest] else [])
      && attempts <= 1 && (attempts == 1 ==> admitted || exportInvalidated)
      && (!admitted ==> reports == [])
      && Logged(reports, dest, lastExternal, exportValid, clock)
      && (exportInvalidated ==> |reports| == frozen)
    }

    method MarkDirty(now: nat)
      modifies this`dirty, this`dirtySince
      ensures dirty && dirtySince == if old(dirty) then old(dirtySince) else now
    {
      if !dirty { dirtySince := now; }
      dirty := true;
    }

    method Invalidate()
      modifies this`exportValid, this`exportInvalidated, this`frozen
      ensures !exportValid && exportInvalidated && frozen == |reports|
    {
      exportValid, exportInvalidated := false, true;
      frozen := |reports|;
    }

    /** admit_destination; `created` is what create_marker returns if it is called, `tried` whether it is. */
    method Admit(c: seq<Destination>, created: bool) returns (a: Admission, ghost tried: bool)
      ensures a.Ready? <==> exists d :: Pinnable(c, created, d)
      ensures a.Ready? ==> Pinnable(c, created, a.dest)
      ensures a.Absent? <==> c == []
      ensures a.Failed? <==> |c| == 1 && !c[0].marked && !created
      ensures tried <==> |c| == 1 && !c[0].marked
    {
      if |c| == 0 { return Absent, false; }
      var marked, chosen, i := 0, 0, 0;
      while i < |c|
        invariant 0 <= i <= |c| && marked == |Marked(c[..i])|
        invariant marked > 0 ==> chosen < i && Marked(c[..i])[marked - 1] == c[chosen]
      {
        assert c[..i + 1][..i] == c[..i];
        if c[i].marked { marked, chosen := marked + 1, i; }
        i := i + 1;
      }
      assert c[..i] == c;
      if marked > 1 { return Ambiguous, false; }
      if marked == 1 {
        assert Marked(c) == [c[chosen]];
        assert Pinnable(c, created, c[chosen]);
        if |c| == 1 { OnlyMarked(c); }
        return Ready(c[chosen]), false;
      }
      if |c| > 1 { return Ambiguous, false; }
      OnlyMarked(c);
      tried := true;
      if !created { return Failed, true; }
      a := Ready(c[0].(marked := true));
      assert Pinnable(c, created, a.dest);
    }

    /** atomic_external: the report is in place once it has been renamed, even if the call still fails. */
    method External(s: Stages, now: nat) returns (ok: bool)
      modifies this`reports
      ensures ok ==> reports == old(reports) + [Report(dest, now)]
      ensures !ok ==> reports == old(reports) || reports == old(reports) + [Report(dest, now)]
    {
      if !s.current || !s.cleared || !s.open { return false; }
      ok := s.written && s.synced;
      if !s.closed { ok := false; }
      if ok && !s.stillCurrent { ok := false; }
      if ok {
        if s.renamed { reports := reports + [Report(dest, now)]; } else { ok := false; }
      }
      if ok { ok := s.directorySynced; }
    }

    /** A destination is pinned, once and for all; if its old report cannot be removed nothing is exported. */
    method Adopt(d: Destination, cleared: bool, ghost tried: bool)
      requires Valid() && !admitted && !exportInvalidated
      modifies this`dest, this`admitted, this`pinned, this`attempts, this`exportValid, this`exportInvalidated
      modifies this`frozen
      ensures Valid() && admitted && dest == d && exportValid == cleared && pinned == [d]
      ensures attempts == old(attempts) + if tried then 1 else 0
    {
      dest, admitted, pinned, attempts := d, true, [d], attempts + if tried then 1 else 0;
      if !cleared { Invalidate(); }
    }

    /** The admission part of a scan. */
    method Pin(t: Turn)
      requires Valid() && clock == t.now
      modifies this`dest, this`admitted, this`pinned, this`attempts, this`exportValid, this`exportInvalidated
      modifies this`frozen
      modifies this`dirty, this`dirtySince, this`everAbsent, this`everAmbiguous
      ensures Valid() && old(pinned) <= pinned && old(attempts) <= attempts
      ensures (old(exportInvalidated) ==> exportInvalidated) && (old(dirty) ==> dirty)
    {
      if !admitted && !exportInvalidated {
        var a, tried := Admit(t.candidates, t.created);
        if a.Ready? {
          Adopt(a.dest, t.cleared, tried);
          MarkDirty(t.now);
        } else {
          if (a.Absent? || a.Failed?) && !everAbsent {
            everAbsent := true;
            MarkDirty(t.now);
          }
          if a.Ambiguous? && !everAmbiguous {
            everAmbiguous := true;
            MarkDirty(t.now);
          }
          if a.Failed? {
            attempts := attempts + 1;
            Invalidate();
            MarkDirty(t.now);
          }
        }
      } else if admitted && exportValid && !t.current {
        Invalidate();
        MarkDirty(t.now);
      }
    }

    /** The external half of a due write. */
    method Replace(t: Turn) returns (external: bool)
      requires Valid() && clock == t.later && t.later <= UINT64_MAX
      modifies this`reports, this`lastExternal, this`replacements, this`exportValid, this`exportInvalidated, this`frozen
      ensures Valid() && old(reports) <= reports &&
              (old(exportInvalidated) ==> exportInvalidated && reports == old(reports))
      ensures external && admitted && exportValid ==> reports == old(reports) + [Report(dest, t.later)]
      ensures old(exportInvalidated) || !admitted ==> external
      ensures !external && exportValid ==>
              lastExternal != 0 && t.later - lastExternal < WRITE_INTERVAL && reports == old(reports)
    {
      external := true;
      if admitted && exportValid {
        if lastExternal != 0 && t.later - lastExternal < WRITE_INTERVAL { return false; }
        LoggedMore(reports, dest, lastExternal, clock, true);
        LoggedMore(reports, dest, lastExternal, clock, false);
        LoggedLater(reports, dest, lastExternal, true, clock, clock, false);
        var ok := External(t.stages, t.later);
        if ok {
          lastExternal := t.later;
          if replacements < UINT64_MAX { replacements := replacements + 1; }
        } else {
          Invalidate();
          external := false;
        }
      }
    }

    /** What a due write leaves: the collector is clean only if everything was written. */
    method Settle(internal: bool, external: bool, later: nat)
      requires Valid() && dirty && later == clock
      modifies this`dirty, this`dirtySince, this`lastSnapshot
      ensures Valid()
      ensures !dirty <==> internal && external
      ensures lastSnapshot == if internal && (external || !exportValid) then later else old(lastSnapshot)
    {
      if internal && external {
        dirty, lastSnapshot := false, later;
      } else if internal && !exportValid {
        lastSnapshot, dirty := later, false;
        MarkDirty(later);
      } else if !internal {
        MarkDirty(dirtySince);
      }
    }

    /** The end of a turn: the report is written when something changed and the interval has passed. */
    method Write(t: Turn)
      requires Valid() && clock == t.later && t.later <= UINT64_MAX
      modifies this`reports, this`lastExternal, this`replacements, this`exportValid, this`exportInvalidated, this`frozen
      modifies this`dirty, this`dirtySince, this`lastSnapshot
      ensures Valid() && old(reports) <= reports
      ensures old(exportInvalidated) ==> exportInvalidated && reports == old(reports)
      // Only a turn that wrote everywhere it still writes leaves the collector clean.
      ensures old(dirty) && !dirty ==>
                t.internal && (admitted && exportValid ==> reports == old(reports) + [Report(dest, t.later)])
    {
      if dirty && (lastSnapshot == 0 || t.later - lastSnapshot >= WRITE_INTERVAL) {
        var external := Replace(t);
        Settle(t.internal, external, t.later);
      }
    }

    method Scan(t: Turn)
      requires Valid() && clock == t.now
      modifies this`dest, this`admitted, this`pinned, this`attempts, this`exportValid, this`exportInvalidated
      modifies this`frozen
      modifies this`dirty, this`dirtySince, this`everAbsent, this`everAmbiguous, this`nextScan
      ensures Valid() && old(pinned) <= pinned && old(attempts) <= attempts
      ensures (old(exportInvalidated) ==> exportInvalidated) && (old(dirty) ==> dirty)
    {
      nextScan := t.now + SCAN_INTERVAL;
      Pin(t);
      if t.changed { MarkDirty(t.now); }
    }

    /** Time passes. */
    ghost method Wait(now: nat)
      requires Valid() && clock <= now
      modifies this`clock
      ensures Valid() && clock == now
    {
      LoggedLater(reports, dest, lastExternal, exportValid, clock, now, exportValid);
      clock := now;
    }

    /** After poll. */
    method Finish(t: Turn)
      requires Valid() && clock <= t.later <= UINT64_MAX
      modifies this`reports, this`lastExternal, this`replacements, this`exportValid, this`exportInvalidated, this`frozen
      modifies this`dirty, this`dirtySince, this`lastSnapshot, this`clock
      ensures Valid() && clock == t.later && old(reports) <= reports
      ensures old(exportInvalidated) ==> exportInvalidated && reports == old(reports)
      ensures old(dirty) && !dirty ==>
              t.internal && (admitted && exportValid ==> reports == old(reports) + [Report(dest, t.later)])
    {
      Wait(t.later);
      if t.changedLater { MarkDirty(t.later); }
      Write(t);
    }

    /** One turn of the main loop. */
    method Loop(t: Turn)
      requires Valid() && clock <= t.now <= t.later <= UINT64_MAX
      modifies this
      ensures Valid() && clock == t.later && old(reports) <= reports && old(pinned) <= pinned &&
              old(attempts) <= attempts
      ensures old(exportInvalidated) ==> exportInvalidated && reports == old(reports)
      ensures old(dirty) && !dirty ==>
              t.internal && (admitted && exportValid ==> reports == old(reports) + [Report(dest, t.later)])
    {
      Wait(t.now);
      if t.now >= nextScan { Scan(t); }
      Finish(t);
    }
  }

  ghost predicate Timely(begun: nat, turns: seq<Turn>) {
    && 0 < begun && (forall i | 0 <= i < |turns| :: begun <= turns[i].now <= turns[i].later <= UINT64_MAX)
    && (forall i, j | 0 <= i < j < |turns| :: turns[i].later <= turns[j].now)
  }

  /** The whole run of the collector, whatever the outside world answers and whenever the turns come. */
  method Run(begun: nat, turns: seq<Turn>) returns (c: Collector)
    requires Timely(begun, turns)
    ensures c.Valid()
    ensures c.attempts <= 1 && |c.pinned| <= 1 && c.exportValid == !c.exportInvalidated && Spaced(c.reports)
    ensures forall i | 0 <= i < |c.reports| :: c.pinned == [c.reports[i].dest]
    ensures c.exportInvalidated ==> |c.reports| == c.frozen
  {
    c := new Collector(begun);
    var i := 0;
    while i < |turns|
      invariant 0 <= i <= |turns| && c.Valid() && fresh(c)
      invariant c.clock == if i == 0 then begun else turns[i - 1].later
    {
      c.Loop(turns[i]);
      i := i + 1;
    }
  }

  lemma OnlyMarked(c: seq<Destination>)
    requires |c| == 1
    ensures Marked(c) == if c[0].marked then c else []
  {
    assert c[..0] == [] && Marked(c[..0]) == [];
  }
}
