/**
 * The stake-registration indexer: five event handlers, batches grouped by event family, overlapping passes and
 * restarts (backend/src/indexer/registrationIndexer.ts).
 */
module RegistrationIndexer {
  import opened Wrappers

  /** An order and a filler. */
  type Key = (nat, nat)

  datatype Event =
    | Registered(key: Key, fillAmount: nat, stake: nat)
    | StakeReturned(key: Key, refund: nat)
    | StakeForfeited(key: Key, amount: nat)
    | Slashed(key: Key, caller: nat, reward: nat)
    | StakeReleased(key: Key)

  datatype Entry = Entry(block: int, tx: nat, event: Event)

  datatype Status = Active | Filled | SlashedOut | Released

  /** How a stake was resolved, with the columns each resolution writes. */
  datatype Resolution = Resolution(status: Status, refund: Option<nat>, reward: Option<nat>, slashedBy: Option<nat>,
                                   at: Option<(int, nat)>)

  const UNRESOLVED := Resolution(Active, None, None, None, None)

  datatype Registration = Registration(fillAmount: nat, stake: nat, registeredBlock: int, resolution: Resolution,
                                       forfeited: Option<nat>)

  type Table = map<Key, Registration>

  // ---------------------------------------------------------------- handlers

  function Resolve(r: Resolution, e: Entry): Resolution {
    match e.event
    case StakeReturned(_, refund) => r.(status := Filled, refund := Some(refund), at := Some((e.block, e.tx)))
    case Slashed(_, caller, reward) =>
      r.(status := SlashedOut, reward := Some(reward), slashedBy := Some(caller), at := Some((e.block, e.tx)))
    case StakeReleased(_) => r.(status := Released, at := Some((e.block, e.tx)))
    case _ => r
  }

  function Handle(table: Table, e: Entry): Table {
    match e.event
    case Registered(key, fillAmount, stake) =>
      if key in table then table else table[key := Registration(fillAmount, stake, e.block, UNRESOLVED, None)]
    case StakeForfeited(key, amount) =>
      if key in table then table[key := table[key].(forfeited := Some(amount))] else table
    case _ =>
      var key := e.event.key;
      if key in table then table[key := table[key].(resolution := Resolve(table[key].resolution, e))] else table
  }

  function Fold(table: Table, log: seq<Entry>): Table
    decreases |log|
  {
    if log == [] then table else Handle(Fold(table, log[..|log| - 1]), log[|log| - 1])
  }

  // ---------------------------------------------------------------- one batch

  function Family(e: Event): nat {
    match e
    case Registered(_, _, _) => 0
    case StakeReturned(_, _) => 1
    case StakeForfeited(_, _) => 2
    case Slashed(_, _, _) => 3
    case StakeReleased(_) => 4
  }

  /** One queryFilterChunked call. */
  function Query(log: seq<Entry>, family: nat, lo: int, hi: int): seq<Entry> {
    if log == [] then []
    else
      (if Family(log[0].event) == family && lo <= log[0].block <= hi then [log[0]] else [])
      + Query(log[1..], family, lo, hi)
  }

  /** The order in which a pass handles the blocks lo..hi. */
  function Batch(log: seq<Entry>, lo: int, hi: int): seq<Entry> {
    Query(log, 0, lo, hi) + Query(log, 1, lo, hi) + Query(log, 2, lo, hi) + Query(log, 3, lo, hi)
      + Query(log, 4, lo, hi)
  }

  lemma {:induction false} QueryContains(log: seq<Entry>, family: nat, lo: int, hi: int, e: Entry)
    ensures e in Query(log, family, lo, hi) <==> e in log && Family(e.event) == family && lo <= e.block <= hi
  {
    if log != [] {
      QueryContains(log[1..], family, lo, hi, e);
    }
  }

  lemma BatchContains(log: seq<Entry>, lo: int, hi: int, e: Entry)
    ensures e in Batch(log, lo, hi) <==> e in log && lo <= e.block <= hi
  {
    QueryContains(log, 0, lo, hi, e);
    QueryContains(log, 1, lo, hi, e);
    QueryContains(log, 2, lo, hi, e);
    QueryContains(log, 3, lo, hi, e);
    QueryContains(log, 4, lo, hi, e);
  }

  /** Once a pass reaches another family, no registration is left in its queue. */
  ghost predicate RegistrationsFirst(queue: seq<Entry>) {
    forall i, j :: 0 <= i < j < |queue| && queue[j].event.Registered? ==> queue[i].event.Registered?
  }

  lemma BatchIsOrdered(log: seq<Entry>, lo: int, hi: int)
    ensures RegistrationsFirst(Batch(log, lo, hi))
  {
    var first := Query(log, 0, lo, hi);
    var batch := Batch(log, lo, hi);
    forall i | 0 <= i < |batch|
      ensures batch[i].event.Registered? <==> i < |first|
    {
      if i < |first| {
        QueryContains(log, 0, lo, hi, batch[i]);
      } else {
        var rest := Query(log, 1, lo, hi) + Query(log, 2, lo, hi) + Query(log, 3, lo, hi) + Query(log, 4, lo, hi);
        assert batch == first + rest;
        assert batch[i] in rest;
        QueryContains(log, 1, lo, hi, batch[i]);
        QueryContains(log, 2, lo, hi, batch[i]);
        QueryContains(log, 3, lo, hi, batch[i]);
        QueryContains(log, 4, lo, hi, batch[i]);
      }
    }
  }

  lemma {:induction false} FoldJoins(table: Table, a: seq<Entry>, b: seq<Entry>)
    ensures Fold(Fold(table, a), b) == Fold(table, a + b)
    decreases |b|
  {
    if b == [] {
      assert a + b == a;
    } else {
      var init := b[..|b| - 1];
      assert (a + b)[..|a + b| - 1] == a + init;
      FoldJoins(table, a, init);
    }
  }

  /** One block callback that runs undisturbed. */
  class Registrations {
    var table: Table
    var lastBlock: int

    constructor (current: int)
      ensures table == map[] && lastBlock == current
    {
      table, lastBlock := map[], current;
    }

    method HandleEach(logs: seq<Entry>)
      modifies this`table
      ensures table == Fold(old(table), logs)
    {
      for i := 0 to |logs|
        invariant table == Fold(old(table), logs[..i])
      {
        assert logs[..i + 1][..i] == logs[..i];
        table := Handle(table, logs[i]);
      }
      assert logs[..|logs|] == logs;
    }

    method OnBlock(log: seq<Entry>, block: int)
      modifies this
      ensures lastBlock == if block <= old(lastBlock) then old(lastBlock) else block
      ensures table == if block <= old(lastBlock) then old(table)
              else Fold(old(table), Batch(log, old(lastBlock) + 1, block))
    {
      if block <= lastBlock {
        return;
      }
      var registered, returned := Query(log, 0, lastBlock + 1, block), Query(log, 1, lastBlock + 1, block);
      var forfeited, slashed := Query(log, 2, lastBlock + 1, block), Query(log, 3, lastBlock + 1, block);
      var released := Query(log, 4, lastBlock + 1, block);
      HandleEach(registered);
      HandleEach(returned);
      FoldJoins(old(table), registered, returned);
      HandleEach(forfeited);
      FoldJoins(old(table), registered + returned, forfeited);
      HandleEach(slashed);
      FoldJoins(old(table), registered + returned + forfeited, slashed);
      HandleEach(released);
      FoldJoins(old(table), registered + returned + forfeited + slashed, released);
      lastBlock := block;
    }
  }

  // ---------------------------------------------------------------- passes over a chain's log

  /** A block callback: the entries still to handle, and the block it scans up to. */
  datatype Pass = Pass(queue: seq<Entry>, hi: int, finished: bool)

  datatype Indexer = Indexer(table: Table, lastBlock: int, checkpoint: int, passes: map<nat, Pass>)

  datatype Step =
    | Start(id: nat, block: int)
    | HandleNext(id: nat)
    | Finish(id: nat)            // lastBlock = blockNumber
    | Save(id: nat)              // the checkpoint write lands
    | Fail(id: nat)
    | Restart

  function Next(s: Indexer, step: Step, log: seq<Entry>): Indexer {
    match step
    case Start(id, block) =>
      if block <= s.lastBlock || id in s.passes then s
      else s.(passes := s.passes[id := Pass(Batch(log, s.lastBlock + 1, block), block, false)])
    case HandleNext(id) =>
      if id !in s.passes || s.passes[id].queue == [] then s
      else s.(table := Handle(s.table, s.passes[id].queue[0]),
              passes := s.passes[id := s.passes[id].(queue := s.passes[id].queue[1..])])
    case Finish(id) =>
      if id !in s.passes || s.passes[id].queue != [] || s.passes[id].finished then s
      else s.(lastBlock := s.passes[id].hi, passes := s.passes[id := s.passes[id].(finished := true)])
    case Save(id) =>
      if id !in s.passes || !s.passes[id].finished then s
      else s.(checkpoint := s.passes[id].hi, passes := s.passes - {id})
    case Fail(id) => s.(passes := s.passes - {id})
    case Restart => s.(lastBlock := s.checkpoint, passes := map[])
  }

  function Run(s: Indexer, steps: seq<Step>, log: seq<Entry>): Indexer
    decreases |steps|
  {
    if steps == [] then s else Run(Next(s, steps[0], log), steps[1..], log)
  }

  /** First start: the checkpoint is seeded with the current block. */
  function Seeded(current: int): Indexer {
    Indexer(map[], current, current, map[])
  }

  // ---------------------------------------------------------------- what the auction guarantees

  predicate IsResolution(e: Event) {
    e.StakeReturned? || e.Slashed? || e.StakeReleased?
  }

  /** e may come before e' in the log: one registration per key, first; at most one resolution and one forfeit. */
  predicate Precedes(e: Event, e': Event) {
    e.key != e'.key
    || (!e'.Registered? && !(IsResolution(e) && IsResolution(e')) && !(e.StakeForfeited? && e'.StakeForfeited?))
  }

  /** The log after the seed block. */
  ghost predicate StakeLog(log: seq<Entry>, seed: int) {
    && (forall i :: 0 <= i < |log| ==> seed < log[i].block)
    && (forall i, j :: 0 <= i < j < |log| ==> log[i].block <= log[j].block && Precedes(log[i].event, log[j].event))
  }

  ghost predicate RegisteredIn(log: seq<Entry>, key: Key) {
    exists e :: e in log && e.event.Registered? && e.event.key == key
  }

  /** The columns a resolving entry stands for. */
  ghost function Outcome(e: Entry): Resolution {
    var at := Some((e.block, e.tx));
    match e.event
    case StakeReturned(_, refund) => Resolution(Filled, Some(refund), None, None, at)
    case Slashed(_, caller, reward) => Resolution(SlashedOut, None, Some(reward), Some(caller), at)
    case StakeReleased(_) => Resolution(Released, None, None, None, at)
    case _ => UNRESOLVED
  }

  /** The row carries what this entry says. */
  ghost predicate Shows(r: Registration, e: Entry) {
    match e.event
    case Registered(_, fillAmount, stake) =>
      r.fillAmount == fillAmount && r.stake == stake && r.registeredBlock == e.block
    case StakeForfeited(_, amount) => r.forfeited == Some(amount)
    case _ => r.resolution == Outcome(e)
  }

  /** Handled for good: whatever happens next, the row stays there and keeps showing it. */
  ghost predicate Settled(log: seq<Entry>, table: Table, e: Entry) {
    RegisteredIn(log, e.event.key) ==> e.event.key in table && Shows(table[e.event.key], e)
  }

  /** A row says nothing the log does not say. */
  ghost predicate RowSound(log: seq<Entry>, key: Key, r: Registration) {
    && (exists e :: e in log && e.event.key == key && e.event.Registered? && Shows(r, e))
    && (r.resolution == UNRESOLVED
        || exists e :: e in log && e.event.key == key && IsResolution(e.event) && Shows(r, e))
    && (r.forfeited == None || exists e :: e in log && e.event.key == key && e.event.StakeForfeited? && Shows(r, e))
  }

  ghost predicate Sound(log: seq<Entry>, table: Table) {
    forall key :: key in table ==> RowSound(log, key, table[key])
  }

  /** An entry may be handled once its registration, if the log has one, has been. */
  ghost predicate Ready(log: seq<Entry>, table: Table, e: Entry) {
    e.event.Registered? || (RegisteredIn(log, e.event.key) ==> e.event.key in table)
  }

  lemma HandleIsSound(log: seq<Entry>, seed: int, table: Table, e: Entry)
    requires StakeLog(log, seed) && e in log && Sound(log, table)
    ensures Sound(log, Handle(table, e))
  {
  }

  /** Handling a ready entry settles it, and unsettles nothing. */
  lemma HandleSettles(log: seq<Entry>, seed: int, table: Table, e: Entry)
    requires StakeLog(log, seed) && e in log && Sound(log, table) && Ready(log, table, e)
    ensures Settled(log, Handle(table, e), e)
  {
  }

  lemma SettledStays(log: seq<Entry>, seed: int, table: Table, e: Entry, x: Entry)
    requires StakeLog(log, seed) && e in log && x in log && Sound(log, table) && Settled(log, table, x)
    ensures Settled(log, Handle(table, e), x)
  {
  }

  // ---------------------------------------------------------------- every run

  ghost predicate SettledUpTo(log: seq<Entry>, table: Table, hi: int) {
    forall e :: e in log && e.block <= hi ==> Settled(log, table, e)
  }

  /** Everything up to the pass's last block is settled or still queued in it. */
  ghost predicate PassOk(log: seq<Entry>, table: Table, p: Pass) {
    && RegistrationsFirst(p.queue) && (forall e :: e in p.queue ==> e in log && e.block <= p.hi)
    && (forall e :: e in log && e.block <= p.hi ==> Settled(log, table, e) || e in p.queue)
    && (p.finished ==> p.queue == [])
  }

  ghost predicate Inv(s: Indexer, log: seq<Entry>) {
    && Sound(log, s.table) && SettledUpTo(log, s.table, s.lastBlock) && SettledUpTo(log, s.table, s.checkpoint)
    && forall id :: id in s.passes ==> PassOk(log, s.table, s.passes[id])
  }

  /** The head of a queue is ready: its registration was handled earlier in this pass or settled before it. */
  lemma HeadIsReady(log: seq<Entry>, seed: int, table: Table, p: Pass)
    requires StakeLog(log, seed) && PassOk(log, table, p) && p.queue != []
    ensures Ready(log, table, p.queue[0])
  {
  }

  lemma StartedPassOk(log: seq<Entry>, table: Table, lastBlock: int, block: int)
    requires SettledUpTo(log, table, lastBlock)
    ensures PassOk(log, table, Pass(Batch(log, lastBlock + 1, block), block, false))
  {
    BatchIsOrdered(log, lastBlock + 1, block);
    forall e
      ensures e in Batch(log, lastBlock + 1, block) <==> e in log && lastBlock + 1 <= e.block <= block
    {
      BatchContains(log, lastBlock + 1, block, e);
    }
  }

  /** Passes other than the one that handled e still know what is settled. */
  lemma PassStaysOk(log: seq<Entry>, seed: int, table: Table, e: Entry, p: Pass)
    requires StakeLog(log, seed) && e in log && Sound(log, table) && PassOk(log, table, p)
    ensures PassOk(log, Handle(table, e), p)
  {
  }

  lemma SettledUpToStays(log: seq<Entry>, seed: int, table: Table, e: Entry, hi: int)
    requires StakeLog(log, seed) && e in log && Sound(log, table) && SettledUpTo(log, table, hi)
    ensures SettledUpTo(log, Handle(table, e), hi)
  {
  }

  lemma PassAdvances(log: seq<Entry>, seed: int, table: Table, p: Pass)
    requires StakeLog(log, seed) && Sound(log, table) && PassOk(log, table, p) && p.queue != []
    ensures PassOk(log, Handle(table, p.queue[0]), p.(queue := p.queue[1..]))
  {
    var e, rest := p.queue[0], p.queue[1..];
    HeadIsReady(log, seed, table, p);
    HandleSettles(log, seed, table, e);
    PassStaysOk(log, seed, table, e, p);
    forall x | x in log && x.block <= p.hi
      ensures Settled(log, Handle(table, e), x) || x in rest
    {
      if x != e && x in p.queue {
        var i :| 0 <= i < |p.queue| && p.queue[i] == x;
        assert rest[i - 1] == x;
      }
    }
  }

  lemma HandleNextKeepsInv(s: Indexer, id: nat, log: seq<Entry>, seed: int)
    requires StakeLog(log, seed) && Inv(s, log) && id in s.passes && s.passes[id].queue != []
    ensures Inv(Next(s, HandleNext(id), log), log)
  {
    var e := s.passes[id].queue[0];
    var s' := Next(s, HandleNext(id), log);
    assert PassOk(log, s.table, s.passes[id]);
    HandleIsSound(log, seed, s.table, e);
    SettledUpToStays(log, seed, s.table, e, s.lastBlock);
    SettledUpToStays(log, seed, s.table, e, s.checkpoint);
    forall other | other in s'.passes
      ensures PassOk(log, s'.table, s'.passes[other])
    {
      if other == id {
        PassAdvances(log, seed, s.table, s.passes[id]);
      } else {
        PassStaysOk(log, seed, s.table, e, s.passes[other]);
      }
    }
  }

  lemma StepKeepsInv(s: Indexer, step: Step, log: seq<Entry>, seed: int)
    requires StakeLog(log, seed) && Inv(s, log)
    ensures Inv(Next(s, step, log), log)
  {
    match step {
      case Start(id, block) => StartedPassOk(log, s.table, s.lastBlock, block);
      case HandleNext(id) =>
        if id in s.passes && s.passes[id].queue != [] {
          HandleNextKeepsInv(s, id, log, seed);
        }
      case _ =>
    }
  }

  lemma {:induction false} RunKeepsInv(s: Indexer, steps: seq<Step>, log: seq<Entry>, seed: int)
    requires StakeLog(log, seed) && Inv(s, log)
    ensures Inv(Run(s, steps, log), log)
    decreases |steps|
  {
    if steps != [] {
      StepKeepsInv(s, steps[0], log, seed);
      RunKeepsInv(Next(s, steps[0], log), steps[1..], log, seed);
    }
  }

  // ---------------------------------------------------------------- one table

  /** Exactly the registered keys have rows; each shows its registration, resolution and forfeit, and nothing else. */
  ghost predicate Complete(log: seq<Entry>, table: Table) {
    Sound(log, table) && forall e :: e in log ==> Settled(log, table, e)
  }

  lemma RowsAgree(log: seq<Entry>, seed: int, a: Table, b: Table, key: Key)
    requires StakeLog(log, seed) && Complete(log, a) && Complete(log, b) && key in a
    ensures key in b && a[key] == b[key]
  {
    assert RowSound(log, key, a[key]);
    var e :| e in log && e.event.key == key && e.event.Registered? && Shows(a[key], e);
    assert Settled(log, b, e);
    assert RowSound(log, key, b[key]);
    ResolutionsAgree(log, a, b, key);
    ResolutionsAgree(log, b, a, key);
    ForfeitsAgree(log, a, b, key);
    ForfeitsAgree(log, b, a, key);
  }

  lemma ResolutionsAgree(log: seq<Entry>, a: Table, b: Table, key: Key)
    requires Complete(log, b) && key in a && key in b && RowSound(log, key, a[key])
    ensures a[key].resolution != UNRESOLVED ==> b[key].resolution == a[key].resolution
  {
  }

  lemma ForfeitsAgree(log: seq<Entry>, a: Table, b: Table, key: Key)
    requires Complete(log, b) && key in a && key in b && RowSound(log, key, a[key])
    ensures a[key].forfeited.Some? ==> b[key].forfeited == a[key].forfeited
  {
  }

  lemma CompleteIsUnique(log: seq<Entry>, seed: int, a: Table, b: Table)
    requires StakeLog(log, seed) && Complete(log, a) && Complete(log, b)
    ensures a == b
  {
    forall key | key in a
      ensures key in b && a[key] == b[key]
    {
      RowsAgree(log, seed, a, b, key);
    }
    forall key | key in b
      ensures key in a
    {
      RowsAgree(log, seed, b, a, key);
    }
  }

  lemma {:induction false} FoldSettles(log: seq<Entry>, seed: int, n: nat)
    requires StakeLog(log, seed) && n <= |log|
    ensures Sound(log, Fold(map[], log[..n])) && forall i :: 0 <= i < n ==> Settled(log, Fold(map[], log[..n]), log[i])
  {
    if n > 0 {
      FoldSettles(log, seed, n - 1);
      assert log[..n][..n - 1] == log[..n - 1];
      var table, e := Fold(map[], log[..n - 1]), log[n - 1];
      HandleIsSound(log, seed, table, e);
      NextIsReady(log, table, n - 1);
      HandleSettles(log, seed, table, e);
      forall i | 0 <= i < n
        ensures Settled(log, Handle(table, e), log[i])
      {
        if i < n - 1 {
          SettledStays(log, seed, table, e, log[i]);
        }
      }
    }
  }

  lemma NextIsReady(log: seq<Entry>, table: Table, n: nat)
    requires n < |log| && (forall i :: 0 <= i < n ==> Settled(log, table, log[i]))
    requires forall i, j :: 0 <= i < j < |log| ==> Precedes(log[i].event, log[j].event)
    ensures Ready(log, table, log[n])
  {
  }

  /**
   * Batches grouped by family, replays, overlapping passes, failures and restarts: once lastBlock has reached
   * the end of the log the table is the one that handling the log in order gives.
   */
  lemma GroupedBatchesEqualLogOrder(log: seq<Entry>, seed: int, steps: seq<Step>)
    requires StakeLog(log, seed)
    ensures var s := Run(Seeded(seed), steps, log);
            (forall e :: e in log ==> e.block <= s.lastBlock) ==> s.table == Fold(map[], log) && Complete(log, s.table)
  {
    RunKeepsInv(Seeded(seed), steps, log, seed);
    var s := Run(Seeded(seed), steps, log);
    if forall e :: e in log ==> e.block <= s.lastBlock {
      FoldSettles(log, seed, |log|);
      assert log[..|log|] == log;
      forall e | e in log
        ensures Settled(log, Fold(map[], log), e)
      {
        var i :| 0 <= i < |log| && log[i] == e;
      }
      CompleteIsUnique(log, seed, s.table, Fold(map[], log));
    }
  }

  // ---------------------------------------------------------------- progress

  function HandleTimes(id: nat, k: nat): seq<Step> {
    if k == 0 then [] else [HandleNext(id)] + HandleTimes(id, k - 1)
  }

  /** One callback from start to checkpoint, with k entries handled. */
  function Callback(id: nat, block: int, k: nat): seq<Step> {
    [Start(id, block)] + (HandleTimes(id, k) + [Finish(id), Save(id)])
  }

  lemma RunStep(s: Indexer, step: Step, rest: seq<Step>, log: seq<Entry>)
    ensures Run(s, [step] + rest, log) == Run(Next(s, step, log), rest, log)
  {
    assert ([step] + rest)[1..] == rest;
  }

  /** A pass with k entries left, handled and finished. */
  lemma {:induction false} PassFinishes(s: Indexer, id: nat, k: nat, log: seq<Entry>)
    requires id in s.passes && |s.passes[id].queue| == k && !s.passes[id].finished
    ensures var t := Run(s, HandleTimes(id, k) + [Finish(id), Save(id)], log);
            t.lastBlock == t.checkpoint == s.passes[id].hi && t.passes == s.passes - {id}
    decreases k
  {
    if k == 0 {
      assert HandleTimes(id, k) + [Finish(id), Save(id)] == [Finish(id)] + [Save(id)];
      RunStep(s, Finish(id), [Save(id)], log);
      var s1 := Next(s, Finish(id), log);
      RunStep(s1, Save(id), [], log);
      assert [Save(id)] + [] == [Save(id)];
      assert s1.passes - {id} == s.passes - {id};
    } else {
      var rest := HandleTimes(id, k - 1) + [Finish(id), Save(id)];
      assert HandleTimes(id, k) + [Finish(id), Save(id)] == [HandleNext(id)] + rest;
      RunStep(s, HandleNext(id), rest, log);
      var s1 := Next(s, HandleNext(id), log);
      PassFinishes(s1, id, k - 1, log);
      assert s1.passes - {id} == s.passes - {id};
    }
  }

  ghost predicate CatchesUp(s: Indexer, t: Indexer, log: seq<Entry>, block: int) {
    t.lastBlock == block && t.checkpoint == block && t.passes == s.passes && SettledUpTo(log, t.table, block)
  }

  /**
   * In any state of any run: a callback for a block past lastBlock that nothing disturbs ends with that block counted
   * and stored, and with every log up to it settled in the table.
   */
  lemma CallbackCatchesUp(s: Indexer, id: nat, block: int, log: seq<Entry>, seed: int) returns (k: nat)
    requires StakeLog(log, seed) && Inv(s, log) && id !in s.passes && block > s.lastBlock
    ensures CatchesUp(s, Run(s, Callback(id, block, k), log), log, block)
  {
    var s1 := Next(s, Start(id, block), log);
    k := |s1.passes[id].queue|;
    RunStep(s, Start(id, block), HandleTimes(id, k) + [Finish(id), Save(id)], log);
    PassFinishes(s1, id, k, log);
    assert s1.passes - {id} == s.passes;
    RunKeepsInv(s, Callback(id, block, k), log, seed);
  }

  /** A failed callback can be started anew, and a restart goes back to the checkpoint; either then catches up. */
  lemma RecoveryCatchesUp(s: Indexer, id: nat, block: int, log: seq<Entry>, seed: int) returns (k: nat, k': nat)
    requires StakeLog(log, seed) && Inv(s, log)
    ensures block > s.lastBlock ==>
              CatchesUp(Next(s, Fail(id), log), Run(s, [Fail(id)] + Callback(id, block, k), log), log, block)
    ensures block > s.checkpoint ==>
              && CatchesUp(Next(s, Restart, log), Run(s, [Restart] + Callback(id, block, k'), log), log, block)
              && Run(s, [Restart] + Callback(id, block, k'), log).passes == map[]
  {
    StepKeepsInv(s, Fail(id), log, seed);
    StepKeepsInv(s, Restart, log, seed);
    k, k' := 0, 0;
    if block > s.lastBlock {
      k := CallbackCatchesUp(Next(s, Fail(id), log), id, block, log, seed);
      RunStep(s, Fail(id), Callback(id, block, k), log);
    }
    if block > s.checkpoint {
      k' := CallbackCatchesUp(Next(s, Restart, log), id, block, log, seed);
      RunStep(s, Restart, Callback(id, block, k'), log);
    }
  }

  /** From the first start, one such callback at the end of the log gives the table of the log in order. */
  lemma SomeRunCatchesUp(log: seq<Entry>, seed: int, block: int) returns (steps: seq<Step>)
    requires StakeLog(log, seed) && block > seed && forall e :: e in log ==> e.block <= block
    ensures Run(Seeded(seed), steps, log).lastBlock == block
    ensures Run(Seeded(seed), steps, log).table == Fold(map[], log)
            && Complete(log, Run(Seeded(seed), steps, log).table)
  {
    var k := CallbackCatchesUp(Seeded(seed), 0, block, log, seed);
    steps := Callback(0, block, k);
    GroupedBatchesEqualLogOrder(log, seed, steps);
  }
}
