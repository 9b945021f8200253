/** Every access of the consumer and of the external writer keeps the invariants of the mailbox; with
    the owner and the hooks that is every schedule. */
module MailboxRetire {
  import opened Requests
  import opened Mailbox
  import opened MailboxWords
  import MailboxOwner
  import MailboxHooks

  // ---------------------------------------------------------------- the consumer

  /** The consumer stores `sealed` and `reclaimed` only. */
  ghost predicate RetireTouch(x: Slot, c: Retire, env: Env, m: RetireMoved) {
    && m.x.(sealed := x.sealed, reclaimed := x.reclaimed) == x
    && (m.x.sealed == x.sealed || (m.x.sealed == x.published && c.pc == RSeal))
    && (m.x.reclaimed == x.reclaimed || (m.x.reclaimed == x.published && c.pc == RStore))
    && m.env.(reclaimed := env.reclaimed, freed := env.freed) == env
    && m.c.at < SLOTS
  }

  lemma CheckKeeps(x: Slot, c: Retire, env: Env, flag: bool, choice: nat, o: Owner, hooks: seq<Hook>)
    requires SlotInv(x) && RetireInv(x, c.at, c, o, hooks) && OwnerInv(x, c.at, o, env) && c.at < SLOTS &&
             Past(c.pc) < 8
    requires |hooks| == LANES && forall l | 0 <= l < LANES :: HookSelf(hooks[l])
    requires flag == (c.i < LANES && hooks[c.i].flag)
    ensures var m := RetireCheck(x, c, env, flag, choice);
            m.x == x && m.env == env && m.c.at < SLOTS && (m.c.at == c.at ==> RetireInv(x, c.at, m.c, o, hooks))
  {
  }

  lemma RefusalKeeps(x: Slot, c: Retire, env: Env, choice: nat, o: Owner, hooks: seq<Hook>)
    requires SlotInv(x) && RetireInv(x, c.at, c, o, hooks) && c.at < SLOTS && 8 <= Past(c.pc) <= 12
    ensures var m := RetireFree(x, c, env, choice);
            SlotInv(m.x) && RetireTouch(x, c, env, m) && m.c.at == c.at && RetireInv(m.x, c.at, m.c, o, hooks)
  {
  }

  lemma SealKeeps(x: Slot, c: Retire, env: Env, choice: nat, o: Owner, hooks: seq<Hook>)
    requires SlotInv(x) && RetireInv(x, c.at, c, o, hooks) && c.at < SLOTS && 13 <= Past(c.pc) <= 16
    ensures var m := RetireFree(x, c, env, choice);
            SlotInv(m.x) && RetireTouch(x, c, env, m) && m.c.at == c.at && RetireInv(m.x, c.at, m.c, o, hooks)
  {
  }

  lemma ReclaimKeeps(x: Slot, c: Retire, env: Env, choice: nat, o: Owner, hooks: seq<Hook>)
    requires SlotInv(x) && RetireInv(x, c.at, c, o, hooks) && c.at < SLOTS && 17 <= Past(c.pc)
    ensures var m := RetireFree(x, c, env, choice);
            SlotInv(m.x) && RetireTouch(x, c, env, m) && m.c.at == c.at && RetireInv(m.x, c.at, m.c, o, hooks)
  {
  }

  /** Sealing and reclaiming come after every lane was found clear, so no hook holds the slot any more. */
  lemma FreeForOthers(x: Slot, at: nat, c: Retire, env: Env, m: RetireMoved, o: Owner, hooks: seq<Hook>, wr: Writer)
    requires c.at == at && RetireTouch(x, c, env, m) && RetireInv(x, at, c, o, hooks) && |hooks| == LANES
    requires OwnerInv(x, at, o, env) && HooksInv(x, at, hooks) && WriterInv(x, at, wr, env) && SlotInv(x)
    ensures OwnerInv(m.x, at, o, m.env) && HooksInv(m.x, at, hooks) && WriterInv(m.x, at, wr, m.env)
  {
  }

  ghost predicate RetireResult(s: State, m: RetireMoved)
    requires Shape(s)
  {
    && RetireTouch(s.slots[s.c.at], s.c, s.env, m)
    && SlotInv(m.x) && (m.c.at == s.c.at ==> RetireInv(m.x, s.c.at, m.c, s.o, s.hooks))
    && (m.c.at != s.c.at ==> Past(m.c.pc) <= 1)
  }

  function AfterRetire(s: State, m: RetireMoved): State
    requires Shape(s)
  {
    s.(slots := s.slots[s.c.at := m.x], c := m.c, env := m.env)
  }

  lemma RetireKeepsSlot(s: State, m: RetireMoved, k: nat)
    requires Inv(s) && k < SLOTS && RetireResult(s, m)
    ensures var x := if k == s.c.at then m.x else s.slots[k];
            && SlotInv(x) && OwnerInv(x, k, s.o, m.env) && HooksInv(x, k, s.hooks)
            && RetireInv(x, k, m.c, s.o, s.hooks) && WriterInv(x, k, s.wr, m.env)
  {
    assert SlotAt(s, k);
    if k == s.c.at { FreeForOthers(s.slots[k], k, s.c, s.env, m, s.o, s.hooks, s.wr); }
  }

  lemma RetireResultKeeps(s: State, m: RetireMoved)
    requires Inv(s) && RetireResult(s, m)
    ensures Inv(AfterRetire(s, m))
  {
    var s' := AfterRetire(s, m);
    assert Shape(s');
    forall k | 0 <= k < SLOTS
      ensures SlotAt(s', k)
    {
      RetireKeepsSlot(s, m, k);
    }
  }

  lemma RetireStepKeeps(s: State, choice: nat)
    requires Inv(s)
    ensures Inv(RetireStep(s, choice))
  {
    var x, flag := s.slots[s.c.at], s.c.i < LANES && s.hooks[s.c.i].flag;
    assert SlotAt(s, s.c.at);
    if Past(s.c.pc) < 8 {
      CheckKeeps(x, s.c, s.env, flag, choice, s.o, s.hooks);
      RetireResultKeeps(s, RetireCheck(x, s.c, s.env, flag, choice));
    } else {
      if Past(s.c.pc) <= 12 { RefusalKeeps(x, s.c, s.env, choice, s.o, s.hooks); }
      else if Past(s.c.pc) > 16 { ReclaimKeeps(x, s.c, s.env, choice, s.o, s.hooks); }
      else { SealKeeps(x, s.c, s.env, choice, s.o, s.hooks); }
      RetireResultKeeps(s, RetireFree(x, s.c, s.env, choice));
    }
  }

  // ---------------------------------------------------------------- the writer

  /** Publication touches a reclaimed slot only, settlement a sealed one. */
  lemma WriterKeepsOwn(x: Slot, wr: Writer, env: Env, choice: nat)
    requires SlotInv(x) && WriterInv(x, wr.at, wr, env) && WriterSelf(wr, env)
    ensures var m := WriterMove(x, wr, env, choice);
            SlotInv(m.x) && WriterInv(m.x, wr.at, m.wr, m.env) && WriterSelf(m.wr, m.env) && m.wr.at == wr.at
  {
  }

  lemma WriterForOthers(x: Slot, at: nat, wr: Writer, env: Env, choice: nat, o: Owner, hooks: seq<Hook>, c: Retire)
    requires SlotInv(x) && wr.at == at && WriterInv(x, at, wr, env)
    requires OwnerInv(x, at, o, env) && HooksInv(x, at, hooks) && RetireInv(x, at, c, o, hooks)
    ensures var m := WriterMove(x, wr, env, choice);
            OwnerInv(m.x, at, o, m.env) && HooksInv(m.x, at, hooks) && RetireInv(m.x, at, c, o, hooks)
  {
  }

  lemma WriterElsewhere(x: Slot, at: nat, z: Slot, wr: Writer, env: Env, choice: nat, o: Owner)
    requires wr.at != at && WriterInv(x, at, wr, env) && WriterSelf(wr, env) && OwnerInv(x, at, o, env)
    ensures var m := WriterMove(z, wr, env, choice);
            WriterInv(x, at, m.wr, m.env) && OwnerInv(x, at, o, m.env)
  {
  }

  lemma WriterKeepsSlot(s: State, choice: nat, k: nat)
    requires Inv(s) && k < SLOTS
    ensures var m := WriterMove(s.slots[s.wr.at], s.wr, s.env, choice);
            var x := if k == s.wr.at then m.x else s.slots[k];
            && SlotInv(x) && OwnerInv(x, k, s.o, m.env) && HooksInv(x, k, s.hooks)
            && RetireInv(x, k, s.c, s.o, s.hooks) && WriterInv(x, k, m.wr, m.env)
  {
    assert SlotAt(s, k) && SlotAt(s, s.wr.at);
    if k == s.wr.at {
      WriterKeepsOwn(s.slots[k], s.wr, s.env, choice);
      WriterForOthers(s.slots[k], k, s.wr, s.env, choice, s.o, s.hooks, s.c);
    } else {
      WriterElsewhere(s.slots[k], k, s.slots[s.wr.at], s.wr, s.env, choice, s.o);
    }
  }

  /** A new sequence is larger than every published one. */
  lemma WriterKeepsDistinct(s: State, choice: nat)
    requires Inv(s)
    ensures var m := WriterMove(s.slots[s.wr.at], s.wr, s.env, choice);
            var slots := s.slots[s.wr.at := m.x];
            forall i, j | 0 <= i < j < SLOTS :: slots[i].published != 0 ==> slots[i].published != slots[j].published
  {
    if s.wr.pc == WPublish {
      forall k | 0 <= k < SLOTS
        ensures s.slots[k].published < s.wr.req.number
      {
        assert SlotAt(s, k);
      }
    }
  }

  lemma WriterActKeeps(s: State, choice: nat)
    requires Inv(s)
    ensures Inv(Step(s, WriterActs(choice)))
  {
    var s' := Step(s, WriterActs(choice));
    assert SlotAt(s, s.wr.at);
    WriterKeepsOwn(s.slots[s.wr.at], s.wr, s.env, choice);
    WriterKeepsDistinct(s, choice);
    assert Shape(s');
    forall k | 0 <= k < SLOTS
      ensures SlotAt(s', k)
    {
      WriterKeepsSlot(s, choice, k);
    }
  }

  lemma WriterBeginKeeps(s: State, wr: Writer)
    requires Inv(s) && s.wr.pc == WIdle && WriterSelf(wr, s.env) && wr.at < SLOTS
    requires (wr.pc == WRequest && s.slots[wr.at].published == s.slots[wr.at].reclaimed)
          || (wr.pc == WSealed && wr.number == s.slots[wr.at].published && wr.number != 0)
    ensures Inv(s.(wr := wr))
  {
    var s' := s.(wr := wr);
    forall k | 0 <= k < SLOTS
      ensures SlotAt(s', k)
    {
      assert SlotAt(s, k);
    }
  }

  lemma WriterStepKeeps(s: State, a: Action)
    requires Inv(s) && (a.WriterPublishes? || a.WriterSettles?)
    ensures Inv(Step(s, a))
  {
    match a
    case WriterPublishes(at, req) =>
      if Step(s, a) != s { WriterBeginKeeps(s, Writer(WRequest, at, req, 0)); }
    case WriterSettles(number) =>
      if Step(s, a) != s { WriterBeginKeeps(s, Writer(WSealed, Find(s.slots, number, 0), NOTHING, number)); }
  }

  // ---------------------------------------------------------------- every schedule

  lemma StepKeepsInv(s: State, a: Action)
    requires Inv(s)
    ensures Inv(Step(s, a))
  {
    match a {
      case OwnerActs(choice, program) => MailboxOwner.OwnerStepKeeps(s, choice, program);
      case HookActs(lane, choice, doing) => if lane < LANES { MailboxHooks.HookStepKeeps(s, lane, choice, doing); }
      case RetireActs(choice) => RetireStepKeeps(s, choice);
      case WriterActs(choice) => WriterActKeeps(s, choice);
      case _ => WriterStepKeeps(s, a);
    }
  }

  /** The state after a whole schedule. */
  ghost function Exec(s: State, schedule: seq<Action>): (r: State)
    requires Inv(s)
    ensures Inv(r)
    decreases |schedule|
  {
    if schedule == [] then s
    else StepKeepsInv(s, schedule[0]); Exec(Step(s, schedule[0]), schedule[1..])
  }
}
