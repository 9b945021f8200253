/** Close safety: what a scan that returned 1 proves, now and for whatever is scheduled later; and what lanes
    and the enrolment count keep over every schedule. */
module AdmissionClose {
  import opened Admission

  /** The observer is closed: nobody publishes, and nobody is on the way to a first lane. */
  ghost predicate Closed(s: State) {
    && !s.w.running
    && (forall t | t in s.threads && s.threads[t].live :: !s.threads[t].pc.Inside? && !Registering(s.threads[t].pc))
    && s.g.ui != UiInside
    && s.g.writers == map[]
  }

  lemma QuietIsClosed(s: State)
    requires Inv(s) && s.g.scan.Quiet?
    ensures Closed(s)
  {
    forall t | t in s.threads && s.threads[t].live
      ensures !s.threads[t].pc.Inside? && !Registering(s.threads[t].pc)
    {
      assert ThreadInv(s.w, s.threads[t]) && PassedBy(s.g.scan, s.threads[t]);
    }
  }

  /** A closed thread can no longer touch a lane's reservation, token, or the count's meaning. */
  lemma QuietMove(w: Words, th: Thread, choice: nat)
    requires Shape(w) && ThreadInv(w, th) && th.live && !Registering(th.pc)
    ensures var m := MoveThread(w, th, choice); m.0.tokens == w.tokens && m.0.claimed == w.claimed
  {
  }

  lemma QuietStep(s: State, a: Action)
    requires Inv(s) && s.g.scan.Quiet?
    ensures var r := Step(s, a);
            r.g.scan.Quiet? && r.w.tokens == s.w.tokens && r.w.claimed == s.w.claimed && r.g.gate == s.g.gate
  {
    QuietIsClosed(s);
    match a {
      case Move(t, choice) =>
        if t in s.threads && s.threads[t].live { QuietMove(s.w, s.threads[t], choice); }
      case _ =>
    }
  }

  /** Close safety: after a scan that returned 1 nobody is inside or on the way in, whatever is
      scheduled afterwards, and the published lane registry never changes again. */
  lemma CloseIsFinal(s: State, schedule: seq<Action>)
    requires Inv(s) && s.g.scan.Quiet?
    ensures var r := Exec(s, schedule);
            Closed(r) && r.g.scan.Quiet? && r.w.tokens == s.w.tokens && r.w.claimed == s.w.claimed && r.g.gate == 2
    decreases |schedule|
  {
    if schedule == [] {
      QuietIsClosed(s);
    } else {
      QuietStep(s, schedule[0]);
      StepKeepsInv(s, schedule[0]);
      CloseIsFinal(Step(s, schedule[0]), schedule[1..]);
    }
  }

  lemma CloseSafety(owner: nat, before: seq<Action>, after: seq<Action>)
    requires owner != 0 && Exec(Initial(owner), before).g.scan.Quiet?
    ensures var s := Exec(Initial(owner), before);
            Closed(s) && Closed(Exec(s, after)) && Exec(s, after).w.tokens == s.w.tokens
  {
    var s := Exec(Initial(owner), before);
    QuietIsClosed(s);
    CloseIsFinal(s, after);
  }

  /** No schedule ever gives two live threads the same lane. */
  lemma LanesAreExclusive(owner: nat, schedule: seq<Action>, t: nat, u: nat)
    requires owner != 0
    ensures var s := Exec(Initial(owner), schedule);
            (t in s.threads && u in s.threads && s.threads[t].live && s.threads[u].live
             && s.threads[t].lane.Some? && s.threads[t].lane == s.threads[u].lane) ==> t == u
  {
    var s := Exec(Initial(owner), schedule);
    if t in s.threads && u in s.threads && t != u {
      assert ThreadInv(s.w, s.threads[t]) && ThreadInv(s.w, s.threads[u]);
    }
  }

  /** The 32-bit enrolment count cannot wrap: each thread stands for at most one unit, leaked or not. */
  lemma CountIsBounded(owner: nat, schedule: seq<Action>)
    requires owner != 0
    ensures Exec(Initial(owner), schedule).w.enrolling <= |Exec(Initial(owner), schedule).threads|
  {
    var s := Exec(Initial(owner), schedule);
    assert s.enrolled <= s.threads.Keys;
    Subset(s.enrolled, s.threads.Keys);
  }

  lemma Subset(a: set<nat>, b: set<nat>)
    requires a <= b
    ensures |a| <= |b|
  {
    assert b == a + (b - a);
  }
}
