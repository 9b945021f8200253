/** The mailbox's counters: every published request is consumed once and reclaimed once. */
module MailboxCounts {
  import opened Mailbox
  import opened MailboxWords
  import opened MailboxRetire

  /** The owner has stored `processed` for slot `at` and not yet counted it. */
  predicate Uncounted(o: Owner, at: nat) {
    o.at == at && o.pc == OCount
  }

  /** The consumer has counted slot `at`'s request as reclaimed and not yet stored `reclaimed`. */
  predicate Unfreed(c: Retire, at: nat) {
    c.at == at && c.pc == RStore
  }

  ghost predicate SlotCounts(x: Slot, at: nat, o: Owner, c: Retire, counted: set<nat>, freed: set<nat>) {
    x.published != 0 ==>
      && (x.published in counted <==> x.processed == x.published && !Uncounted(o, at))
      && (x.published in freed <==> x.reclaimed == x.published || Unfreed(c, at))
  }

  /** Where a published request can be: reclaimed, in a slot, or between the writer's two stores. */
  ghost predicate Accounted(s: State, n: nat) {
    n in s.env.freed || (exists at | 0 <= at < |s.slots| :: s.slots[at].published == n)
    || (s.wr.pc == WPublish && s.wr.req.number == n)
  }

  ghost predicate Counts(s: State) {
    var e := s.env;
    && |s.slots| == SLOTS
    && e.consumed == |e.counted| && e.reclaimed == |e.freed| && e.freed <= e.counted
    && (forall n | n in e.counted :: 1 <= n <= e.published && (s.wr.pc == WPublish ==> n < s.wr.req.number))
    && (forall at | 0 <= at < SLOTS :: SlotCounts(s.slots[at], at, s.o, s.c, e.counted, e.freed))
    && (forall n | 1 <= n <= e.published :: Accounted(s, n))
  }

  lemma InitialCounts()
    ensures Counts(Initial())
  {
    var s := Initial();
    forall at | 0 <= at < SLOTS
      ensures s.slots[at].published == 0
    {
      assert s.slots[at] == EmptySlot();
    }
  }

  // ---------------------------------------------------------------- the owner

  /** The owner counts exactly the request it has just processed. */
  ghost predicate OwnerCounted(x: Slot, o: Owner, env: Env, m: OwnerMoved) {
    && m.env.reclaimed == env.reclaimed && m.env.freed == env.freed && m.env.published == env.published
    && m.x.published == x.published && m.x.reclaimed == x.reclaimed
    && (if o.pc == OCount then m.env.consumed == env.consumed + 1 && m.env.counted == env.counted + {o.number}
        else m.env.consumed == env.consumed && m.env.counted == env.counted)
    && (o.pc == OProcess || o.pc == ORefused ==> m.x.processed == o.number && m.o.pc == OCount && m.o.at == o.at)
    && (o.pc != OProcess && o.pc != ORefused ==> m.x.processed == x.processed && m.o.pc != OCount)
  }

  lemma OwnerCounts(x: Slot, y: Slot, o: Owner, env: Env, choice: nat, program: nat)
    requires |x.logs| == LANES
    ensures OwnerCounted(x, o, env, OwnerMove(x, y, o, env, choice, program))
  {
    var r := Rank(o.pc);
    if r < 20 { assert OwnerCounted(x, o, env, OwnerVisit(x, o, env, choice)); }
    else if r < 23 { assert OwnerCounted(x, o, env, OwnerDecide(x, y, o, env, choice, program)); }
    else if r < 34 || r == 42 || r == 43 { OwnerPrepareCounts(x, o, env, choice); }
    else { OwnerRunCounts(x, o, env, choice); }
  }

  lemma OwnerPrepareCounts(x: Slot, o: Owner, env: Env, choice: nat)
    requires |x.logs| == LANES && (23 <= Rank(o.pc) < 34 || 42 <= Rank(o.pc) <= 43)
    ensures OwnerCounted(x, o, env, OwnerPrepare(x, o, env, choice))
  {
  }

  lemma OwnerRunCounts(x: Slot, o: Owner, env: Env, choice: nat)
    requires |x.logs| == LANES && (34 <= Rank(o.pc) < 42 || 50 <= Rank(o.pc))
    ensures OwnerCounted(x, o, env, OwnerRun(x, o, env, choice))
  {
  }

  lemma OwnerCountsSlot(s: State, m: OwnerMoved, at: nat)
    requires Inv(s) && Counts(s) && OwnerCounted(s.slots[s.o.at], s.o, s.env, m) && at < SLOTS
    ensures SlotCounts(if at == s.o.at then m.x else s.slots[at], at, m.o, s.c, m.env.counted, m.env.freed)
  {
    if at == s.o.at { OwnerCountsOwn(s, m); } else { OwnerCountsOther(s, m, at); }
  }

  lemma OwnerCountsOwn(s: State, m: OwnerMoved)
    requires Inv(s) && Counts(s) && OwnerCounted(s.slots[s.o.at], s.o, s.env, m)
    ensures SlotCounts(m.x, s.o.at, m.o, s.c, m.env.counted, m.env.freed)
  {
    assert SlotCounts(s.slots[s.o.at], s.o.at, s.o, s.c, s.env.counted, s.env.freed);
    assert OwnerInv(s.slots[s.o.at], s.o.at, s.o, s.env) by { assert SlotAt(s, s.o.at); }
  }

  lemma OwnerCountsOther(s: State, m: OwnerMoved, at: nat)
    requires Inv(s) && Counts(s) && OwnerCounted(s.slots[s.o.at], s.o, s.env, m) && at < SLOTS && at != s.o.at
    ensures SlotCounts(s.slots[at], at, m.o, s.c, m.env.counted, m.env.freed)
  {
    assert SlotCounts(s.slots[at], at, s.o, s.c, s.env.counted, s.env.freed);
    assert OwnerInv(s.slots[s.o.at], s.o.at, s.o, s.env) by { assert SlotAt(s, s.o.at); }
  }

  lemma OwnerCountsNew(s: State, m: OwnerMoved)
    requires Inv(s) && Counts(s) && OwnerCounted(s.slots[s.o.at], s.o, s.env, m)
    ensures m.env.consumed == |m.env.counted| && m.env.freed <= m.env.counted
    ensures forall n | n in m.env.counted :: 1 <= n <= m.env.published && (s.wr.pc == WPublish ==> n < s.wr.req.number)
  {
    var a := s.o.at;
    assert SlotAt(s, a) && SlotCounts(s.slots[a], a, s.o, s.c, s.env.counted, s.env.freed);
  }

  lemma AfterOwnerCounts(s: State, m: OwnerMoved)
    requires Inv(s) && Counts(s) && OwnerCounted(s.slots[s.o.at], s.o, s.env, m)
    ensures Counts(s.(slots := s.slots[s.o.at := m.x], o := m.o, env := m.env))
  {
    var s' := s.(slots := s.slots[s.o.at := m.x], o := m.o, env := m.env);
    OwnerCountsNew(s, m);
    forall at | 0 <= at < SLOTS
      ensures SlotCounts(s'.slots[at], at, s'.o, s'.c, s'.env.counted, s'.env.freed)
    {
      OwnerCountsSlot(s, m, at);
    }
    SameNumbersAccounted(s, s');
  }

  /** Nothing disappears while the slots keep their numbers. */
  lemma SameNumbersAccounted(s: State, s': State)
    requires |s.slots| == |s'.slots| &&
             forall at | 0 <= at < |s.slots| :: s.slots[at].published == s'.slots[at].published
    requires s.env.freed <= s'.env.freed && s.wr == s'.wr
    ensures forall n :: Accounted(s, n) ==> Accounted(s', n)
  {
    forall n | Accounted(s, n)
      ensures Accounted(s', n)
    {
      if at :| 0 <= at < |s.slots| && s.slots[at].published == n { assert s'.slots[at].published == n; }
    }
  }

  // ---------------------------------------------------------------- hooks, consumer, writer

  lemma HookCounts(s: State, lane: nat, choice: nat, doing: Doing)
    requires Inv(s) && Counts(s) && lane < LANES
    ensures Counts(HookStep(s, lane, choice, doing))
  {
    MailboxHooks.HookMoveResult(s, lane, choice, doing);
    HookResultCounts(s, lane, HookSlot(s, lane, doing), HookMove(s, lane, choice, doing));
  }

  lemma HookResultCounts(s: State, lane: nat, at: nat, m: HookMoved)
    requires Inv(s) && Counts(s) && lane < LANES && MailboxHooks.HookResult(s, lane, at, m)
    ensures Counts(MailboxHooks.AfterHook(s, lane, at, m))
  {
    var s' := MailboxHooks.AfterHook(s, lane, at, m);
    forall k | 0 <= k < SLOTS
      ensures SlotCounts(s'.slots[k], k, s'.o, s'.c, s'.env.counted, s'.env.freed)
    {
      assert SlotCounts(s.slots[k], k, s.o, s.c, s.env.counted, s.env.freed);
    }
    SameNumbersAccounted(s, s');
  }

  /** The consumer counts exactly the request it is about to mark reclaimed. */
  ghost predicate RetireCounted(x: Slot, c: Retire, env: Env, m: RetireMoved) {
    && m.x.published == x.published && m.x.processed == x.processed
    && m.env.consumed == env.consumed && m.env.counted == env.counted && m.env.published == env.published
    && (if c.pc == RCount
        then m.env.reclaimed == env.reclaimed + 1 && m.env.freed == env.freed + {c.number} && m.c == c.(pc := RStore)
        else m.env.reclaimed == env.reclaimed && m.env.freed == env.freed && m.c.pc != RStore)
    && m.x.reclaimed == (if c.pc == RStore then c.number else x.reclaimed)
  }

  lemma RetireIsCounted(x: Slot, c: Retire, env: Env, flag: bool, choice: nat)
    ensures Past(c.pc) < 8 ==> RetireCounted(x, c, env, RetireCheck(x, c, env, flag, choice))
    ensures 8 <= Past(c.pc) ==> RetireCounted(x, c, env, RetireFree(x, c, env, choice))
  {
  }

  lemma AfterRetireCounts(s: State, m: RetireMoved)
    requires Inv(s) && Counts(s) && RetireCounted(s.slots[s.c.at], s.c, s.env, m)
    ensures Counts(AfterRetire(s, m))
  {
    var s' := AfterRetire(s, m);
    var a := s.c.at;
    assert SlotAt(s, a) && SlotCounts(s.slots[a], a, s.o, s.c, s.env.counted, s.env.freed);
    if s.c.pc == RCount { assert s.c.number in s.env.counted && s.c.number !in s.env.freed; }
    forall k | 0 <= k < SLOTS
      ensures SlotCounts(s'.slots[k], k, s'.o, s'.c, s'.env.counted, s'.env.freed)
    {
      assert SlotCounts(s.slots[k], k, s.o, s.c, s.env.counted, s.env.freed);
    }
    SameNumbersAccounted(s, s');
  }

  lemma RetireCounts(s: State, choice: nat)
    requires Inv(s) && Counts(s)
    ensures Counts(RetireStep(s, choice))
  {
    var x, flag := s.slots[s.c.at], s.c.i < LANES && s.hooks[s.c.i].flag;
    RetireIsCounted(x, s.c, s.env, flag, choice);
    AfterRetireCounts(s, if Past(s.c.pc) < 8 then RetireCheck(x, s.c, s.env, flag, choice)
      else RetireFree(x, s.c, s.env, choice));
  }

  lemma WriterCounts(s: State, choice: nat)
    requires Inv(s) && Counts(s)
    ensures Counts(Step(s, WriterActs(choice)))
  {
    var s' := Step(s, WriterActs(choice));
    var a := s.wr.at;
    assert SlotAt(s, a) && SlotCounts(s.slots[a], a, s.o, s.c, s.env.counted, s.env.freed);
    forall k | 0 <= k < SLOTS
      ensures SlotCounts(s'.slots[k], k, s'.o, s'.c, s'.env.counted, s'.env.freed)
    {
      assert SlotAt(s, k) && SlotCounts(s.slots[k], k, s.o, s.c, s.env.counted, s.env.freed);
    }
    forall n | 1 <= n <= s'.env.published
      ensures Accounted(s', n)
    {
      if n <= s.env.published {
        assert Accounted(s, n);
        if at :| 0 <= at < SLOTS && s.slots[at].published == n {
          if s.wr.pc == WPublish && at == a { assert n in s.env.freed; } else { assert s'.slots[at].published == n; }
        } else if s.wr.pc == WPublish && s.wr.req.number == n { assert s'.slots[a].published == n; }
      }
    }
  }

  lemma StepKeepsCounts(s: State, a: Action)
    requires Inv(s) && Counts(s)
    ensures Counts(Step(s, a))
  {
    match a {
      case OwnerActs(choice, program) =>
        var x, y := s.slots[s.o.at], s.slots[if s.o.i < SLOTS then s.o.i else 0];
        OwnerCounts(x, y, s.o, s.env, choice, program);
        AfterOwnerCounts(s, OwnerMove(x, y, s.o, s.env, choice, program));
      case HookActs(lane, choice, doing) => if lane < LANES { HookCounts(s, lane, choice, doing); }
      case RetireActs(choice) => RetireCounts(s, choice);
      case WriterActs(choice) => WriterCounts(s, choice);
      case _ =>
        var s' := Step(s, a);
        assert s'.slots == s.slots && s'.env == s.env;
        SameButIdle(s, s');
    }
  }

  lemma SameButIdle(s: State, s': State)
    requires Shape(s) && Shape(s') && Counts(s) && s'.slots == s.slots && s'.env == s.env && s'.o == s.o && s'.c == s.c
    requires s'.wr == s.wr || (s.wr.pc == WIdle && s'.wr.pc in {WRequest, WSealed})
    ensures Counts(s')
  {
    forall n | 1 <= n <= s.env.published
      ensures Accounted(s', n)
    {
      assert Accounted(s, n);
    }
  }

  lemma {:induction false} ExecCounts(s: State, schedule: seq<Action>)
    requires Inv(s) && Counts(s)
    ensures Counts(Exec(s, schedule))
    decreases |schedule|
  {
    if schedule != [] {
      StepKeepsInv(s, schedule[0]);
      StepKeepsCounts(s, schedule[0]);
      ExecCounts(Step(s, schedule[0]), schedule[1..]);
    }
  }

  lemma RangeSize(a: set<nat>, n: nat)
    requires forall k | k in a :: 1 <= k <= n
    ensures |a| <= n
  {
    if n == 0 {
      assert a == {};
    } else {
      RangeSize(a - {n}, n - 1);
    }
  }

  /** After any schedule the three counters are ordered, each counts distinct requests, and no published
      request is lost. */
  lemma CountersAreExact(schedule: seq<Action>)
    ensures Inv(Initial())
    ensures var s := (InitialInv(); Exec(Initial(), schedule));
            && s.env.reclaimed <= s.env.consumed <= s.env.published <= LAST_SEQUENCE
            && s.env.consumed == |s.env.counted| && s.env.reclaimed == |s.env.freed| && s.env.freed <= s.env.counted
            && forall n | 1 <= n <= s.env.published :: Accounted(s, n)
  {
    InitialInv();
    InitialCounts();
    ExecCounts(Initial(), schedule);
    var s := Exec(Initial(), schedule);
    RangeSize(s.env.counted, s.env.published);
    assert s.env.counted == s.env.freed + (s.env.counted - s.env.freed);
  }
}
