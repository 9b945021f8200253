/** Conflicting requests are served one after the other, whatever slots they use and wherever the
    owner's scan starts. */
module MailboxConflicts {
  import opened Requests
  import opened Mailbox
  import opened MailboxWords
  import opened MailboxRetire

  /** Published before `number` and not reclaimed. */
  predicate Older(x: Slot, number: nat) {
    x.published != 0 && x.published < number && x.reclaimed != x.published
  }

  /** Accepted or refused by the owner (its conflict scan is behind it) and not reclaimed. */
  predicate Taken(x: Slot, at: nat, o: Owner) {
    x.reclaimed != x.published && (x.processed == x.published || (o.at == at && 23 <= Rank(o.pc) <= 43))
  }

  ghost predicate Clear(x: Slot, older: Slot) {
    Older(older, x.published) ==> !Conflict(older.request, x.request)
  }

  /** No older conflicting request is left beside a taken one. */
  ghost predicate Serial(s: State)
    requires |s.slots| == SLOTS
  {
    forall k, j | 0 <= k < SLOTS && 0 <= j < SLOTS && k != j && Taken(s.slots[k], k, s.o) ::
      Clear(s.slots[k], s.slots[j])
  }

  /** What the scan has established about the slots it has passed. */
  ghost predicate Scanning(s: State)
    requires |s.slots| == SLOTS
  {
    Rank(s.o.pc) == 22 ==>
      && s.o.i <= SLOTS
      && (forall j | 0 <= j < s.o.i && j != s.o.at && Older(s.slots[j], s.o.number) ::
           !Conflict(s.slots[j].request, s.o.req))
      && (s.o.pc != OScan ==>
            && s.o.i < SLOTS && s.o.i != s.o.at
            && (s.o.other == s.slots[s.o.i].published || s.o.number < s.slots[s.o.i].published))
  }

  ghost predicate ConflictInv(s: State) {
    |s.slots| == SLOTS && Serial(s) && Scanning(s)
  }

  lemma InitialConflicts()
    ensures ConflictInv(Initial())
  {
    var s := Initial();
    forall k | 0 <= k < SLOTS
      ensures !Taken(s.slots[k], k, s.o)
    {
      assert s.slots[k] == EmptySlot();
    }
  }

  // ---------------------------------------------------------------- the owner

  /** One access of the scan, seen from the slot it looks at. */
  ghost predicate ScanMove(o: Owner, y: Slot, o': Owner) {
    && o'.at == o.at && o'.number == o.number
    && ((Rank(o'.pc) == 22 || Rank(o'.pc) == 23) ==>
          && o'.req == o.req
          && (o.i < SLOTS ==> o'.pc != OAccept && (o'.i == o.i || o'.i == o.i + 1))
          && (o.i >= SLOTS ==> o'.i == o.i)
          && (o'.i == o.i + 1 && o.i < SLOTS && o.i != o.at && Older(y, o.number) ==> !Conflict(y.request, o.req))
          && (o'.pc == OScanReclaimed || o'.pc == OScanRead ==>
                o.i < SLOTS && o'.i == o.i && o.i != o.at && (o'.other == y.published || o.number < y.published)))
  }

  lemma ScanMoves(x: Slot, y: Slot, o: Owner, env: Env, choice: nat, program: nat)
    requires Rank(o.pc) == 22 && o.i <= SLOTS
    requires o.pc != OScan ==> o.i < SLOTS && o.i != o.at && (o.other == y.published || o.number < y.published)
    ensures ScanMove(o, y, OwnerDecide(x, y, o, env, choice, program).o)
  {
  }

  /** Outside the scan the owner only carries on with a request it has taken, or starts afresh. */
  ghost predicate OwnerCarries(x: Slot, o: Owner, m: OwnerMoved) {
    && m.x.published == x.published && m.x.reclaimed == x.reclaimed && m.x.request == x.request
    && (Rank(o.pc) != 22 ==>
          && (Rank(m.o.pc) == 22 ==>
               o.pc == OResolve &&
               m.o == o.(pc := OScan, why := m.o.why, late := m.o.late, program := m.o.program, i := 0))
          && (23 <= Rank(m.o.pc) <= 43 || m.x.processed != x.processed ==> 23 <= Rank(o.pc) <= 43 && m.o.at == o.at))
    && (Rank(o.pc) == 22 ==> m.x == x && Rank(m.o.pc) <= 23)
  }

  lemma OwnerCarriesOn(x: Slot, y: Slot, o: Owner, env: Env, choice: nat, program: nat)
    requires |x.logs| == LANES
    ensures OwnerCarries(x, o, OwnerMove(x, y, o, env, choice, program))
  {
    var r := Rank(o.pc);
    if r < 20 { assert OwnerCarries(x, o, OwnerVisit(x, o, env, choice)); }
    else if r < 23 { assert OwnerCarries(x, o, OwnerDecide(x, y, o, env, choice, program)); }
    else if r < 34 || r == 42 || r == 43 { PrepareCarries(x, o, env, choice); }
    else { RunCarries(x, o, env, choice); }
  }

  lemma PrepareCarries(x: Slot, o: Owner, env: Env, choice: nat)
    requires |x.logs| == LANES && (23 <= Rank(o.pc) < 34 || 42 <= Rank(o.pc) <= 43)
    ensures OwnerCarries(x, o, OwnerPrepare(x, o, env, choice))
  {
  }

  lemma RunCarries(x: Slot, o: Owner, env: Env, choice: nat)
    requires |x.logs| == LANES && (34 <= Rank(o.pc) < 42 || 50 <= Rank(o.pc))
    ensures OwnerCarries(x, o, OwnerRun(x, o, env, choice))
  {
  }

  /** Slots keep what conflicts depend on. */
  ghost predicate SameRequests(s: State, s': State) {
    |s.slots| == |s'.slots| == SLOTS &&
    forall k | 0 <= k < SLOTS :: s'.slots[k].published == s.slots[k].published
      && s'.slots[k].reclaimed == s.slots[k].reclaimed && s'.slots[k].request == s.slots[k].request
  }

  lemma AfterOwnerSerial(s: State, s': State)
    requires Inv(s) && ConflictInv(s) && SameRequests(s, s')
    requires forall k | 0 <= k < SLOTS && Taken(s'.slots[k], k, s'.o) ::
               Taken(s.slots[k], k, s.o) || (k == s.o.at && Rank(s.o.pc) == 22 && s.o.i >= SLOTS)
    ensures Serial(s')
  {
    assert SlotAt(s, s.o.at);
    forall k, j | 0 <= k < SLOTS && 0 <= j < SLOTS && k != j && Taken(s'.slots[k], k, s'.o)
      ensures Clear(s'.slots[k], s'.slots[j])
    {
      if Taken(s.slots[k], k, s.o) { assert Clear(s.slots[k], s.slots[j]); }
    }
  }

  lemma OwnerConflicts(s: State, choice: nat, program: nat)
    requires Inv(s) && ConflictInv(s)
    ensures ConflictInv(OwnerStep(s, choice, program))
  {
    var x, y := s.slots[s.o.at], s.slots[if s.o.i < SLOTS then s.o.i else 0];
    var m := OwnerMove(x, y, s.o, s.env, choice, program);
    OwnerCarriesOn(x, y, s.o, s.env, choice, program);
    if Rank(s.o.pc) == 22 { ScanMoves(x, y, s.o, s.env, choice, program); }
    OwnerMovedConflicts(s, m, y);
  }

  lemma OwnerMovedConflicts(s: State, m: OwnerMoved, y: Slot)
    requires Inv(s) && ConflictInv(s) && OwnerCarries(s.slots[s.o.at], s.o, m)
    requires y == s.slots[if s.o.i < SLOTS then s.o.i else 0]
    requires Rank(s.o.pc) == 22 ==> ScanMove(s.o, y, m.o)
    ensures ConflictInv(MailboxOwner.AfterOwner(s, m))
  {
    var s' := MailboxOwner.AfterOwner(s, m);
    assert SlotAt(s, s.o.at);
    assert SameRequests(s, s');
    AfterOwnerSerial(s, s');
  }

  // ---------------------------------------------------------------- the others

  /** Hooks do not touch a request, its number or who has taken it. */
  lemma HookConflicts(s: State, lane: nat, choice: nat, doing: Doing)
    requires Inv(s) && ConflictInv(s) && lane < LANES
    ensures ConflictInv(HookStep(s, lane, choice, doing))
  {
    MailboxHooks.HookMoveResult(s, lane, choice, doing);
    HookResultConflicts(s, lane, HookSlot(s, lane, doing), HookMove(s, lane, choice, doing));
  }

  lemma HookResultConflicts(s: State, lane: nat, at: nat, m: HookMoved)
    requires Inv(s) && ConflictInv(s) && lane < LANES && MailboxHooks.HookResult(s, lane, at, m)
    ensures ConflictInv(MailboxHooks.AfterHook(s, lane, at, m))
  {
    var s' := MailboxHooks.AfterHook(s, lane, at, m);
    assert SameRequests(s, s');
    AfterOwnerSerial(s, s');
  }

  ghost predicate OnlyReclaims(s: State, s': State)
    requires |s.slots| == |s'.slots| == SLOTS
  {
    && s'.o == s.o
    && forall k | 0 <= k < SLOTS ::
         && s'.slots[k].published == s.slots[k].published && s'.slots[k].request == s.slots[k].request
         && s'.slots[k].processed == s.slots[k].processed
         && (s'.slots[k].reclaimed == s.slots[k].reclaimed || s'.slots[k].reclaimed == s.slots[k].published)
  }

  /** Reclaiming only takes requests out of consideration. */
  lemma ReclaimConflicts(s: State, s': State)
    requires |s.slots| == |s'.slots| == SLOTS && ConflictInv(s) && OnlyReclaims(s, s')
    ensures ConflictInv(s')
  {
    forall k, j | 0 <= k < SLOTS && 0 <= j < SLOTS && k != j && Taken(s'.slots[k], k, s'.o)
      ensures Clear(s'.slots[k], s'.slots[j])
    {
      assert Taken(s.slots[k], k, s.o) && Clear(s.slots[k], s.slots[j]);
    }
  }

  lemma RetireConflicts(s: State, choice: nat)
    requires Inv(s) && ConflictInv(s)
    ensures ConflictInv(RetireStep(s, choice))
  {
    assert SlotAt(s, s.c.at);
    ReclaimConflicts(s, RetireStep(s, choice));
  }

  /** A publication is newer than everything taken or being scanned; a request is rewritten only in a
      reclaimed slot. */
  lemma WriterConflicts(s: State, choice: nat)
    requires Inv(s) && ConflictInv(s)
    ensures ConflictInv(Step(s, WriterActs(choice)))
  {
    var s' := Step(s, WriterActs(choice));
    var a := s.wr.at;
    assert SlotAt(s, a);
    forall k | 0 <= k < SLOTS
      ensures s.wr.pc == WPublish ==> s.slots[k].published < s.wr.req.number
    {
      assert SlotAt(s, k);
    }
    assert SlotAt(s, s.o.at);
    forall k, j | 0 <= k < SLOTS && 0 <= j < SLOTS && k != j && Taken(s'.slots[k], k, s'.o)
      ensures Clear(s'.slots[k], s'.slots[j])
    {
      assert Taken(s.slots[k], k, s.o) && Clear(s.slots[k], s.slots[j]);
    }
  }

  lemma StepKeepsConflicts(s: State, a: Action)
    requires Inv(s) && ConflictInv(s)
    ensures ConflictInv(Step(s, a))
  {
    match a {
      case OwnerActs(choice, program) => OwnerConflicts(s, choice, program);
      case HookActs(lane, choice, doing) => if lane < LANES { HookConflicts(s, lane, choice, doing); }
      case RetireActs(choice) => RetireConflicts(s, choice);
      case WriterActs(choice) => WriterConflicts(s, choice);
      case _ => ReclaimConflicts(s, Step(s, a));
    }
  }

  lemma {:induction false} ExecConflicts(s: State, schedule: seq<Action>)
    requires Inv(s) && ConflictInv(s)
    ensures ConflictInv(Exec(s, schedule))
    decreases |schedule|
  {
    if schedule != [] {
      StepKeepsInv(s, schedule[0]);
      StepKeepsConflicts(s, schedule[0]);
      ExecConflicts(Step(s, schedule[0]), schedule[1..]);
    }
  }

  // ---------------------------------------------------------------- serialisation

  /** Two conflicting requests are never both accepted (or refused) and unreclaimed. */
  lemma NeverBothTaken(s: State, k: nat, j: nat)
    requires Inv(s) && ConflictInv(s) && k < SLOTS && j < SLOTS && k != j
    requires Taken(s.slots[k], k, s.o) && Taken(s.slots[j], j, s.o)
    ensures !Conflict(s.slots[k].request, s.slots[j].request)
  {
    assert SlotAt(s, k) && SlotAt(s, j);
    assert Clear(s.slots[k], s.slots[j]) && Clear(s.slots[j], s.slots[k]);
    ConflictIsSymmetric(s.slots[k].request, s.slots[j].request);
  }

  /** The step that processes a request finds every older conflicting one reclaimed. */
  lemma ProcessedAfterOlder(s: State, a: Action, k: nat, j: nat)
    requires Inv(s) && ConflictInv(s) && k < SLOTS && j < SLOTS && k != j
    requires Step(s, a).slots[k].processed != s.slots[k].processed
    requires s.slots[j].published != 0 && s.slots[j].published < s.slots[k].published
    requires Conflict(s.slots[j].request, s.slots[k].request)
    ensures s.slots[j].reclaimed == s.slots[j].published
  {
    assert SlotAt(s, k);
    match a {
      case OwnerActs(choice, program) =>
        OwnerCarriesOn(s.slots[s.o.at], s.slots[if s.o.i < SLOTS then s.o.i else 0], s.o, s.env, choice, program);
        assert Taken(s.slots[k], k, s.o);
        assert Clear(s.slots[k], s.slots[j]);
      case HookActs(lane, choice, doing) => if lane < LANES { MailboxHooks.HookMoveResult(s, lane, choice, doing); }
      case _ =>
    }
  }

  lemma ConflictsAreSerialised(schedule: seq<Action>, k: nat, j: nat)
    requires k < SLOTS && j < SLOTS && k != j
    ensures Inv(Initial())
    ensures var s := (InitialInv(); Exec(Initial(), schedule));
            Taken(s.slots[k], k, s.o) && Taken(s.slots[j], j, s.o) ==> !Conflict(s.slots[k].request, s.slots[j].request)
  {
    InitialInv();
    InitialConflicts();
    ExecConflicts(Initial(), schedule);
    var s := Exec(Initial(), schedule);
    if Taken(s.slots[k], k, s.o) && Taken(s.slots[j], j, s.o) { NeverBothTaken(s, k, j); }
  }
}
