/** Revision-guarded records: one exclusive writer that raises the revision, stores the words and raises it
    again, any number of readers in other processes, and the lease word that the writer also renews
    without touching the revision.

    The record has any number of words; the last one is the lease.  A writer that is killed is one that
    is never scheduled again. */
module Seqlock {
  const WORD: nat := 0x1_0000_0000
  const UINT32_MAX: nat := 0xFFFF_FFFF

  datatype Task = Idle | Writing(at: nat, wanted: seq<nat>)

  datatype Read =
    | Outside
    | Copying(rev: nat, got: seq<nat>)
    | Returned(rev: nat, got: seq<nat>)

  /** `history` and `leases` are the publications that were completed, by revision, and the lease values
      stored while each was current.  `last` is the newest revision a reader has returned. */
  datatype Reader = Reader(read: Read, last: nat)

  datatype State = State(
    revision: nat, words: seq<nat>, task: Task, readers: seq<Reader>,
    history: map<nat, seq<nat>>, leases: map<nat, set<nat>>)

  datatype Action =
    | Publish(values: seq<nat>)   // begin a publication
    | Renew(until: nat)           // renew the lease of the current publication
    | Write                       // the writer's next store
    | Load(reader: nat)           // a reader's next load

  /** The guard of every writer: not mid-write, and two more revisions still fit. */
  predicate MayPublish(s: State) {
    s.task.Idle? && s.revision % 2 == 0 && s.revision <= UINT32_MAX - 2
  }

  function WriteOne(s: State): State {
    match s.task
    case Idle => s
    case Writing(at, wanted) =>
      if at < |s.words| && at < |wanted| then
        s.(words := s.words[at := wanted[at]], task := Writing(at + 1, wanted))
      else
        var r := (s.revision + 1) % WORD;
        s.(revision := r, task := Idle, history := s.history[r := wanted],
           leases := s.leases[r := if wanted == [] then {} else {wanted[|wanted| - 1]}])
  }

  /** One load of effects_demand_read or effects_copy_read. */
  function LoadOne(s: State, c: Reader): Reader {
    match c.read
    case Outside =>
      if s.revision == 0 || s.revision % 2 == 1 then c else c.(read := Copying(s.revision, []))
    case Copying(rev, got) =>
      if |got| < |s.words| then c.(read := Copying(rev, got + [s.words[|got|]]))
      else if s.revision == rev then Reader(Returned(rev, got), rev)
      else c.(read := Outside)
    case Returned(_, _) => c.(read := Outside)
  }

  function Step(s: State, a: Action): State {
    match a
    case Publish(values) =>
      if MayPublish(s) && |values| == |s.words|
        then s.(revision := (s.revision + 1) % WORD, task := Writing(0, values)) else s
    case Renew(until) =>
      if s.task.Idle? && s.revision in s.leases && |s.words| > 0 then
        s.(words := s.words[|s.words| - 1 := until], leases := s.leases[s.revision := s.leases[s.revision] + {until}])
      else s
    case Write => WriteOne(s)
    case Load(reader) =>
      if reader < |s.readers| then s.(readers := s.readers[reader := LoadOne(s, s.readers[reader])]) else s
  }

  // ---------------------------------------------------------------- the invariant

  /** `got` holds the first words of publication `rev`; its lease word may have been renewed since. */
  ghost predicate Agrees(got: seq<nat>, rev: nat, s: State) {
    && rev in s.history && rev in s.leases && |s.history[rev]| == |s.words| && |got| <= |s.words|
    && forall k | 0 <= k < |got| :: if k + 1 < |s.words| then got[k] == s.history[rev][k] else got[k] in s.leases[rev]
  }

  ghost predicate WordsInv(s: State) {
    match s.task
    case Idle => s.revision % 2 == 0 && (s.revision != 0 ==> Agrees(s.words, s.revision, s))
    case Writing(at, wanted) =>
      && s.revision % 2 == 1 && |wanted| == |s.words| && at <= |wanted|
      && forall k | 0 <= k < at :: s.words[k] == wanted[k]
  }

  ghost predicate ReaderInv(c: Reader, s: State) {
    c.last <= s.revision &&
    match c.read
    case Outside => true
    case Copying(rev, got) =>
      0 < rev && rev % 2 == 0 && c.last <= rev <= s.revision && (rev == s.revision ==> Agrees(got, rev, s))
    case Returned(rev, got) => rev <= s.revision && |got| == |s.words| && Agrees(got, rev, s)
  }

  /** The completed publications are exactly the even revisions so far. */
  ghost predicate HistoryInv(s: State) {
    && s.revision < UINT32_MAX
    && (forall r :: r in s.history <==> 0 < r <= s.revision && r % 2 == 0)
    && s.leases.Keys == s.history.Keys
  }

  ghost predicate Inv(s: State) {
    HistoryInv(s) && WordsInv(s) && forall i | 0 <= i < |s.readers| :: ReaderInv(s.readers[i], s)
  }

  function Initial(words: nat, readers: nat): State {
    State(0, seq(words, _ => 0), Idle, seq(readers, _ => Reader(Outside, 0)), map[], map[])
  }

  /** What one step may do to what has already been published: nothing. */
  ghost predicate Extends(s: State, s': State) {
    && s.revision <= s'.revision && |s'.words| == |s.words|
    && (forall r | r in s.history :: r in s'.history && s'.history[r] == s.history[r])
    && (forall r | r in s.leases :: r in s'.leases && s.leases[r] <= s'.leases[r])
  }

  lemma ReadersKept(s: State, s': State)
    requires Inv(s) && Extends(s, s') && s'.readers == s.readers
    ensures forall i | 0 <= i < |s.readers| :: ReaderInv(s'.readers[i], s')
  {
    forall i | 0 <= i < |s.readers|
      ensures ReaderInv(s'.readers[i], s')
    {
      assert ReaderInv(s.readers[i], s);
    }
  }

  lemma PublishKeeps(s: State, values: seq<nat>)
    requires Inv(s)
    ensures var s' := Step(s, Publish(values)); Inv(s') && Extends(s, s')
  {
    ReadersKept(s, Step(s, Publish(values)));
  }

  lemma RenewKeeps(s: State, until: nat)
    requires Inv(s)
    ensures var s' := Step(s, Renew(until)); Inv(s') && Extends(s, s')
  {
    ReadersKept(s, Step(s, Renew(until)));
  }

  lemma WriteKeeps(s: State)
    requires Inv(s)
    ensures Inv(WriteOne(s)) && Extends(s, WriteOne(s))
  {
    ReadersKept(s, WriteOne(s));
  }

  lemma LoadKeeps(s: State, reader: nat)
    requires Inv(s)
    ensures var s' := Step(s, Load(reader)); Inv(s') && Extends(s, s')
  {
    if reader < |s.readers| { assert ReaderInv(s.readers[reader], s); }
  }

  /** Every step keeps the invariant and every completed publication. */
  lemma StepKeepsInv(s: State, a: Action)
    requires Inv(s)
    ensures Inv(Step(s, a)) && Extends(s, Step(s, a))
  {
    match a
    case Publish(values) => PublishKeeps(s, values);
    case Renew(until) => RenewKeeps(s, until);
    case Write => WriteKeeps(s);
    case Load(reader) => LoadKeeps(s, reader);
  }

  ghost function Exec(s: State, schedule: seq<Action>): (r: State)
    requires Inv(s)
    ensures Inv(r)
    decreases |schedule|
  {
    if schedule == [] then s
    else StepKeepsInv(s, schedule[0]); Exec(Step(s, schedule[0]), schedule[1..])
  }

  lemma InitialInv(words: nat, readers: nat)
    ensures Inv(Initial(words, readers))
  {
  }

  // ---------------------------------------------------------------- what a read returns

  /** A successful read returns one completed publication, word for word; only its lease may be a renewal
      stored while that publication was current.  So it is exactly the publication if and only if the lease it
      returned is the published one. */
  lemma SnapshotIsOnePublication(words: nat, readers: nat, schedule: seq<Action>, i: nat)
    requires i < readers
    ensures Inv(Initial(words, readers))
    ensures var s := (InitialInv(words, readers); Exec(Initial(words, readers), schedule));
            i < |s.readers| && s.readers[i].read.Returned? ==>
              var c := s.readers[i].read;
              && c.rev in s.history && c.rev % 2 == 0 && |c.got| == |s.history[c.rev]| == |s.words|
              && (forall k | 0 <= k < |c.got| - 1 :: c.got[k] == s.history[c.rev][k])
              && (c.got != [] ==> c.rev in s.leases && c.got[|c.got| - 1] in s.leases[c.rev])
              && (c.got == s.history[c.rev] <==>
                    c.got == [] || c.got[|c.got| - 1] == s.history[c.rev][|s.words| - 1])
  {
    InitialInv(words, readers);
    var s := Exec(Initial(words, readers), schedule);
    if i < |s.readers| { assert ReaderInv(s.readers[i], s); }
  }

  // ---------------------------------------------------------------- when it is exactly one publication

  /** Every lease stored so far, first or renewed, was the published one. */
  ghost predicate Truthful(s: State) {
    forall r | r in s.history && r in s.leases && |s.history[r]| > 0 ::
      s.leases[r] <= {s.history[r][|s.history[r]| - 1]}
  }

  lemma {:induction false} ExecAppend(s: State, schedule: seq<Action>, a: Action)
    requires Inv(s)
    ensures Exec(s, schedule + [a]) == Step(Exec(s, schedule), a)
    decreases |schedule|
  {
    if schedule == [] {
      StepKeepsInv(s, a);
      assert schedule + [a] == [a] && [a][1..] == [];
      assert Exec(Step(s, a), []) == Step(s, a);
    } else {
      StepKeepsInv(s, schedule[0]);
      assert (schedule + [a])[1..] == schedule[1..] + [a];
      ExecAppend(Step(s, schedule[0]), schedule[1..], a);
    }
  }

  lemma {:induction false} ExecJoins(s: State, first: seq<Action>, second: seq<Action>)
    requires Inv(s)
    ensures Exec(s, first + second) == Exec(Exec(s, first), second)
    decreases |first|
  {
    if first == [] {
      assert first + second == second;
    } else {
      StepKeepsInv(s, first[0]);
      assert (first + second)[1..] == first[1..] + second;
      ExecJoins(Step(s, first[0]), first[1..], second);
    }
  }

  /** `n` times the same action. */
  function Times(a: Action, n: nat): seq<Action> {
    if n == 0 then [] else [a] + Times(a, n - 1)
  }

  function WithReader(s: State, i: nat, read: Read, last: nat): State
    requires i < |s.readers|
  {
    s.(readers := s.readers[i := Reader(read, last)])
  }

  lemma {:induction false} CopyAlone(s: State, i: nat, k: nat)
    requires Inv(s) && s.task.Idle? && s.revision != 0 && i < |s.readers| && k <= |s.words|
    requires s.readers[i].read == Copying(s.revision, s.words[..k])
    ensures Exec(s, Times(Load(i), |s.words| - k + 1)) == WithReader(s, i, Returned(s.revision, s.words), s.revision)
    decreases |s.words| - k
  {
    var rest := Times(Load(i), |s.words| - k);
    var s' := Step(s, Load(i));
    StepKeepsInv(s, Load(i));
    assert Times(Load(i), |s.words| - k + 1)[1..] == rest;
    if k < |s.words| {
      assert s.words[..k] + [s.words[k]] == s.words[..k + 1];
      CopyAlone(s', i, k + 1);
      assert WithReader(s', i, Returned(s.revision, s.words), s.revision)
          == WithReader(s, i, Returned(s.revision, s.words), s.revision);
    } else {
      assert s.words[..k] == s.words && Exec(s', []) == s';
    }
  }

  /** A reader scheduled alone between two writes returns the words as they stand. */
  lemma ReadAlone(s: State, i: nat)
    requires Inv(s) && s.task.Idle? && s.revision != 0 && i < |s.readers| && s.readers[i].read.Outside?
    ensures Exec(s, Times(Load(i), |s.words| + 2)) == WithReader(s, i, Returned(s.revision, s.words), s.revision)
  {
    var s' := Step(s, Load(i));
    StepKeepsInv(s, Load(i));
    assert Times(Load(i), |s.words| + 2)[1..] == Times(Load(i), |s.words| + 1);
    assert s.words[..0] == [];
    CopyAlone(s', i, 0);
    assert WithReader(s', i, Returned(s.revision, s.words), s.revision)
        == WithReader(s, i, Returned(s.revision, s.words), s.revision);
  }

  /** Of any record, in any state between two writes: a read begun now is exactly the current publication if and
      only if the lease as it stands is the published one. */
  lemma ReadIsExactExactly(s: State, i: nat)
    requires Inv(s) && s.task.Idle? && s.revision != 0 && i < |s.readers| && s.readers[i].read.Outside?
    ensures s.revision in s.history && |s.history[s.revision]| == |s.words|
    ensures var r := Exec(s, Times(Load(i), |s.words| + 2));
            |r.readers| == |s.readers| && r.readers[i].read == Returned(s.revision, s.words)
    ensures s.words == s.history[s.revision] <==>
              s.words == [] || s.words[|s.words| - 1] == s.history[s.revision][|s.words| - 1]
  {
    ReadAlone(s, i);
  }

  /** A read by reader `i`, begun now and not disturbed, is exactly the current publication. */
  ghost predicate ReadsExactly(s: State, i: nat)
    requires Inv(s)
  {
    s.task.Idle? && s.revision in s.history && i < |s.readers| && s.readers[i].read.Outside? ==>
      var r := Exec(s, Times(Load(i), |s.words| + 2));
      i < |r.readers| && r.readers[i].read == Returned(s.revision, s.history[s.revision])
  }

  lemma {:induction false} TruthfulReads(s: State, i: nat)
    requires Inv(s) && Truthful(s)
    ensures ReadsExactly(s, i)
  {
    if s.task.Idle? && s.revision in s.history && i < |s.readers| && s.readers[i].read.Outside? { ReadAlone(s, i); }
  }

  lemma {:induction false} UntruthfulReads(s: State, i: nat)
    requires Inv(s) && s.task.Idle? && s.revision in s.history && s.words != s.history[s.revision]
    requires i < |s.readers| && s.readers[i].read.Outside?
    ensures !ReadsExactly(s, i)
  {
    ReadAlone(s, i);
  }

  /** The same after a schedule. */
  ghost predicate FreshReadIsExact(words: nat, readers: nat, schedule: seq<Action>, i: nat)
    requires Inv(Initial(words, readers))
  {
    ReadsExactly(Exec(Initial(words, readers), schedule), i)
  }

  /** A reader that is not scheduled has not begun to read. */
  lemma {:induction false} Waiting(s: State, schedule: seq<Action>, i: nat)
    requires Inv(s) && i < |s.readers| && s.readers[i].read.Outside?
    requires forall k | 0 <= k < |schedule| :: schedule[k] != Load(i)
    ensures var r := Exec(s, schedule); |r.readers| == |s.readers| && r.readers[i].read.Outside?
    decreases |schedule|
  {
    if schedule != [] {
      StepKeepsInv(s, schedule[0]);
      Waiting(Step(s, schedule[0]), schedule[1..], i);
    }
  }

  /** The step that stores another lease than the published one leaves it as the current one. */
  lemma UntruthfulStep(s: State, a: Action)
    requires Inv(s) && Truthful(s) && !Truthful(Step(s, a))
    ensures var s' := Step(s, a);
            s'.task.Idle? && s'.revision in s'.history && s'.readers == s.readers && s'.words != s'.history[s'.revision]
  {
    StepKeepsInv(s, a);
  }

  lemma {:induction false} UntruthfulRun(words: nat, readers: nat, schedule: seq<Action>, i: nat) returns (k: nat)
    requires i < readers && forall j | 0 <= j < |schedule| :: schedule[j] != Load(i)
    requires Inv(Initial(words, readers)) && !Truthful(Exec(Initial(words, readers), schedule))
    ensures k <= |schedule| && !FreshReadIsExact(words, readers, schedule[..k], i)
    decreases |schedule|
  {
    var s0 := Initial(words, readers);
    assert schedule != [];
    var n := |schedule| - 1;
    var before := schedule[..n];
    assert before + [schedule[n]] == schedule;
    ExecAppend(s0, before, schedule[n]);
    if Truthful(Exec(s0, before)) {
      k := |schedule|;
      assert schedule[..k] == schedule;
      var s := Exec(s0, schedule);
      UntruthfulStep(Exec(s0, before), schedule[n]);
      Waiting(s0, schedule, i);
      UntruthfulReads(s, i);
    } else {
      k := UntruthfulRun(words, readers, before, i);
      assert before[..k] == schedule[..k];
    }
  }

  lemma TruthfulBefore(s: State, schedule: seq<Action>)
    requires Inv(s) && Truthful(Exec(s, schedule))
    ensures Truthful(s)
  {
    ExecExtends(s, schedule);
  }

  lemma {:induction false} TruthfulRun(words: nat, readers: nat, schedule: seq<Action>, k: nat, i: nat)
    requires i < readers && forall j | 0 <= j < |schedule| :: schedule[j] != Load(i)
    requires k <= |schedule| && Inv(Initial(words, readers)) && Truthful(Exec(Initial(words, readers), schedule))
    ensures FreshReadIsExact(words, readers, schedule[..k], i)
  {
    var s0 := Initial(words, readers);
    assert schedule[..k] + schedule[k..] == schedule;
    ExecJoins(s0, schedule[..k], schedule[k..]);
    var s := Exec(s0, schedule[..k]);
    TruthfulBefore(s, schedule[k..]);
    TruthfulReads(s, i);
  }

  /** The exact condition, over all runs and records of any size: a reader that comes along gets exactly one
      publication, at whatever point it comes, if and only if no renewal stored another lease than the
      published one. */
  lemma {:induction false} ReadsAreExactExactly(words: nat, readers: nat, schedule: seq<Action>, i: nat)
    requires i < readers && forall j | 0 <= j < |schedule| :: schedule[j] != Load(i)
    ensures Inv(Initial(words, readers))
    ensures Truthful(Exec(Initial(words, readers), schedule)) <==>
              forall k | 0 <= k <= |schedule| :: FreshReadIsExact(words, readers, schedule[..k], i)
  {
    InitialInv(words, readers);
    var s0 := Initial(words, readers);
    if Truthful(Exec(s0, schedule)) {
      forall k | 0 <= k <= |schedule|
        ensures FreshReadIsExact(words, readers, schedule[..k], i)
      {
        TruthfulRun(words, readers, schedule, k, i);
      }
    } else {
      var k := UntruthfulRun(words, readers, schedule, i);
    }
  }

  /** And then every read of every interleaving is, however often it was interrupted. */
  lemma SnapshotIsExact(words: nat, readers: nat, schedule: seq<Action>, i: nat)
    ensures Inv(Initial(words, readers))
    ensures var s := (InitialInv(words, readers); Exec(Initial(words, readers), schedule));
            Truthful(s) && i < |s.readers| && s.readers[i].read.Returned? ==>
              var c := s.readers[i].read;
              c.rev in s.history && c.got == s.history[c.rev]
  {
    InitialInv(words, readers);
    var s := Exec(Initial(words, readers), schedule);
    if i < |s.readers| { assert ReaderInv(s.readers[i], s); }
  }

  // ---------------------------------------------------------------- a renewed lease, on the effects interest

  /** `s` once `wanted` has been published under revision `rev`. */
  function Completed(s: State, rev: nat, wanted: seq<nat>): State {
    s.(revision := rev, words := wanted, task := Idle, history := s.history[rev := wanted],
       leases := s.leases[rev := if wanted == [] then {} else {wanted[|wanted| - 1]}])
  }

  lemma WriteLast(s: State, wanted: seq<nat>)
    requires Inv(s) && s.task == Writing(|wanted|, wanted)
    ensures WriteOne(s) == Completed(s, s.revision + 1, wanted)
  {
    assert s.words == wanted;
  }

  lemma {:induction false} WriteAlone(s: State, at: nat, wanted: seq<nat>)
    requires Inv(s) && s.task == Writing(at, wanted)
    ensures Exec(s, Times(Write, |wanted| - at + 1)) == Completed(s, s.revision + 1, wanted)
    decreases |wanted| - at
  {
    var s' := Step(s, Write);
    StepKeepsInv(s, Write);
    assert Times(Write, |wanted| - at + 1)[1..] == Times(Write, |wanted| - at);
    if at < |wanted| {
      WriteAlone(s', at + 1, wanted);
      assert Completed(s', s.revision + 1, wanted) == Completed(s, s.revision + 1, wanted);
    } else {
      WriteLast(s, wanted);
      assert Exec(s', []) == s';
    }
  }

  lemma {:induction false} Then(s: State, a: Action, rest: seq<Action>)
    requires Inv(s)
    ensures Inv(Step(s, a)) && Exec(s, [a] + rest) == Exec(Step(s, a), rest)
  {
    StepKeepsInv(s, a);
    assert ([a] + rest)[1..] == rest;
  }

  lemma {:induction false} PublishFirst(s: State, values: seq<nat>)
    requires Inv(s) && MayPublish(s) && |values| == |s.words|
    ensures Step(s, Publish(values)) == s.(revision := s.revision + 1, task := Writing(0, values))
  {
  }

  /** A writer scheduled alone completes its publication. */
  lemma {:induction false} PublishAlone(s: State, values: seq<nat>)
    requires Inv(s) && MayPublish(s) && |values| == |s.words|
    ensures Exec(s, [Publish(values)] + Times(Write, |values| + 1)) == Completed(s, s.revision + 2, values)
  {
    Then(s, Publish(values), Times(Write, |values| + 1));
    PublishFirst(s, values);
    WriteAlone(Step(s, Publish(values)), 0, values);
  }

  /** enabled, epoch, serial, slot, page and until of one EffectsInterest. */
  function Interest(until: nat): seq<nat> {
    [1, 3, 12, 0, 2, until]
  }

  /** The interest is published with a lease until 5000, the lease is renewed until 6000, and one reader reads. */
  function RenewedRun(): seq<Action> {
    [Publish(Interest(5000))] + Times(Write, 7) + [Renew(6000)] + Times(Load(0), 8)
  }

  /** The read succeeds and returns the published five words with a lease that was never published with them. */
  lemma RenewedLeaseIsReturned()
    ensures Inv(Initial(6, 1))
    ensures var s := (InitialInv(6, 1); Exec(Initial(6, 1), RenewedRun()));
            && |s.readers| == 1 && s.readers[0].read == Returned(2, Interest(6000))
            && 2 in s.history && s.history[2] == Interest(5000) && s.history.Keys == {2}
  {
    InitialInv(6, 1);
    var s0 := Initial(6, 1);
    var first := [Publish(Interest(5000))] + Times(Write, 7);
    PublishAlone(s0, Interest(5000));
    var s1 := Exec(s0, first);
    ExecAppend(s0, first, Renew(6000));
    var s2 := Exec(s0, first + [Renew(6000)]);
    assert s2.words == Interest(6000);
    ReadAlone(s2, 0);
    ExecJoins(s0, first + [Renew(6000)], Times(Load(0), 8));
  }

  // ---------------------------------------------------------------- revisions are never reused

  lemma {:induction false} ExecExtends(s: State, schedule: seq<Action>)
    requires Inv(s)
    ensures Extends(s, Exec(s, schedule))
    decreases |schedule|
  {
    if schedule != [] {
      StepKeepsInv(s, schedule[0]);
      ExecExtends(Step(s, schedule[0]), schedule[1..]);
    }
  }

  /** Whatever happens later, a completed publication keeps its revision and its words, and a reader never
      goes back to an older revision than one it has returned. */
  lemma RevisionsAreNotReused(s: State, schedule: seq<Action>, rev: nat, i: nat)
    requires Inv(s) && rev in s.history
    ensures var r := Exec(s, schedule);
            && rev in r.history && r.history[rev] == s.history[rev] && r.revision < UINT32_MAX
            && (i < |s.readers| ==> i < |r.readers| && s.readers[i].last <= r.readers[i].last)
  {
    ExecExtends(s, schedule);
    if i < |s.readers| { ReadsGoForward(s, schedule, i); }
  }

  lemma {:induction false} ReadsGoForward(s: State, schedule: seq<Action>, i: nat)
    requires Inv(s) && i < |s.readers|
    ensures var r := Exec(s, schedule); |r.readers| == |s.readers| && s.readers[i].last <= r.readers[i].last
    decreases |schedule|
  {
    if schedule != [] {
      assert ReaderInv(s.readers[i], s);
      StepKeepsInv(s, schedule[0]);
      ReadsGoForward(Step(s, schedule[0]), schedule[1..], i);
    }
  }

  function Evens(n: nat): set<nat> {
    if n == 0 then {} else Evens(n - 1) + {2 * n}
  }

  lemma {:induction false} EvensAre(n: nat, r: nat)
    ensures r in Evens(n) <==> 0 < r <= 2 * n && r % 2 == 0
  {
    if n > 0 { EvensAre(n - 1, r); }
  }

  lemma {:induction false} EvensCount(n: nat)
    ensures |Evens(n)| == n
  {
    if n > 0 {
      EvensCount(n - 1);
      EvensAre(n - 1, 2 * n);
    }
  }

  /** Between writes a publication is refused exactly when 2^31 - 1 of them have been made: the revision
      runs out instead of wrapping. */
  lemma RefusedExactlyWhenFull(s: State)
    requires Inv(s) && s.task.Idle?
    ensures !MayPublish(s) <==> |s.history| == 0x7FFF_FFFF
  {
    var n := s.revision / 2;
    forall r: nat
      ensures r in s.history.Keys <==> r in Evens(n)
    {
      EvensAre(n, r);
    }
    assert s.history.Keys == Evens(n);
    EvensCount(n);
    assert |s.history| == |s.history.Keys|;
  }
}
