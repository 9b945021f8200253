/** The closer's scan by itself: it returns 1 exactly when every word it reads is clear. */
module AdmissionScan {
  import opened Admission

  /** `n` loads of command_quiescent with nobody else moving and no spurious failure. */
  function ScanAlone(g: Guard, w: Words, n: nat): Guard
    requires Shape(w)
    decreases n
  {
    if n == 0 then g else ScanAlone(MoveScan(g, w, 0), w, n - 1)
  }

  ghost predicate AllClear(g: Guard, w: Words)
    requires Shape(w)
  {
    && !w.running && !g.inHook && (g.gate == 0 || g.gate == 2) && w.enrolling == 0
    && forall l | 0 <= l < LANES :: !w.flags[l]
  }

  ghost predicate SeenClear(g: Guard, w: Words, gate: nat)
    requires Shape(w)
  {
    && (Stage(g.scan) >= 1 ==> !w.running)
    && (Stage(g.scan) >= 2 ==> !g.inHook)
    && (Stage(g.scan) >= 5 ==> g.gate == 2)
    && (g.gate == gate || gate == 0)
    && (Stage(g.scan) >= 7 ==> w.enrolling == 0)
    && Scanned(g.scan) <= LANES
    && forall l | 0 <= l < Scanned(g.scan) :: !w.flags[l]
  }

  lemma {:induction false} ScanAloneSees(g: Guard, w: Words, n: nat, gate: nat)
    requires Shape(w) && SeenClear(g, w, gate)
    ensures SeenClear(ScanAlone(g, w, n), w, gate) && ScanAlone(g, w, n).inHook == g.inHook
    decreases n
  {
    if n > 0 { ScanAloneSees(MoveScan(g, w, 0), w, n - 1, gate); }
  }

  lemma {:induction false} LanesToQuiet(g: Guard, w: Words, n: nat)
    requires Shape(w) && AllClear(g, w) && g.scan.ScanLane? && g.scan.i < LANES && n >= LANES - g.scan.i
    ensures ScanAlone(g, w, n).scan.Quiet?
    decreases n
  {
    var g' := MoveScan(g, w, 0);
    if g'.scan.Quiet? { StaysQuiet(g', w, n - 1); } else { LanesToQuiet(g', w, n - 1); }
  }

  lemma {:induction false} StaysQuiet(g: Guard, w: Words, n: nat)
    requires Shape(w) && g.scan.Quiet?
    ensures ScanAlone(g, w, n).scan.Quiet?
    decreases n
  {
    if n > 0 { StaysQuiet(MoveScan(g, w, 0), w, n - 1); }
  }

  lemma {:induction false} PrefixToLanes(g: Guard, w: Words, n: nat)
    requires Shape(w) && AllClear(g, w) && Stage(g.scan) < 7 && (Stage(g.scan) == 4 ==> g.gate == 0)
    requires n >= 7 - Stage(g.scan) + LANES
    ensures ScanAlone(g, w, n).scan.Quiet?
    decreases n
  {
    var g' := MoveScan(g, w, 0);
    if g'.scan.ScanLane? { LanesToQuiet(g', w, n - 1); } else { PrefixToLanes(g', w, n - 1); }
  }

  /** Left alone, the scan returns 1 exactly when every word it reads is clear. */
  lemma ScanAloneIsExact(g: Guard, w: Words)
    requires Shape(w) && g.scan.ScanIdle?
    ensures ScanAlone(g, w, 7 + LANES).scan.Quiet? <==> AllClear(g, w)
  {
    if AllClear(g, w) {
      PrefixToLanes(g, w, 7 + LANES);
    } else {
      ScanAloneSees(g, w, 7 + LANES, g.gate);
    }
  }
}
