/**
 * The at-least-once block scanner of both escrow watchers: checkpoint resolution, chunked log queries and
 * the drain loop (backend/src/db/checkpoint.ts, backend/src/chain/escrowDstWatcher.ts).
 */
module ScanLoop {
  import opened Arith
  import opened Wrappers

  const RESCAN_LAG := 30

  /** INDEXER_DEV_REWIND_LAG and INDEXER_BACKFILL. */
  datatype Settings = Settings(devRewindLag: int, backfill: bool)

  /** One row of indexer_state. */
  datatype Checkpoint = Checkpoint(lastBlock: int, fingerprint: Option<nat>)

  // ---------------------------------------------------------------- where to start

  predicate OtherChain(stored: Checkpoint, fingerprint: Option<nat>) {
    fingerprint.Some? && stored.fingerprint.Some? && stored.fingerprint != fingerprint
  }

  predicate StaleInDev(stored: Checkpoint, current: int, cfg: Settings) {
    current - stored.lastBlock > cfg.devRewindLag && !cfg.backfill
  }

  /** The row left behind; its lastBlock is where scanning resumes. */
  function Resolve(row: Option<Checkpoint>, current: int, fingerprint: Option<nat>, cfg: Settings): Checkpoint {
    match row
    case None => Checkpoint(current, fingerprint)
    case Some(stored) =>
      var kept := if stored.fingerprint.Some? then stored.fingerprint else fingerprint;
      if OtherChain(stored, fingerprint) then Checkpoint(current, fingerprint)
      else if stored.lastBlock > current || StaleInDev(stored, current, cfg) then Checkpoint(current, kept)
      else Checkpoint(stored.lastBlock, kept)
  }

  /** Nothing is skipped exactly when the tip is not ahead, or the chain is the same and the lag is acceptable. */
  predicate KeepsBacklog(stored: Checkpoint, current: int, fingerprint: Option<nat>, cfg: Settings) {
    current <= stored.lastBlock || (!OtherChain(stored, fingerprint) && !StaleInDev(stored, current, cfg))
  }

  lemma ResolveSkipsNothingIff(stored: Checkpoint, current: int, fingerprint: Option<nat>, cfg: Settings)
    ensures Resolve(Some(stored), current, fingerprint, cfg).lastBlock <= stored.lastBlock
            <==> KeepsBacklog(stored, current, fingerprint, cfg)
  {
  }

  // ---------------------------------------------------------------- chunked queries

  datatype Log = Log(block: int, id: nat)

  ghost predicate InBlockOrder(logs: seq<Log>) {
    forall i, j :: 0 <= i < j < |logs| ==> logs[i].block <= logs[j].block
  }

  /** One eth_getLogs call over an inclusive block range. */
  function Query(logs: seq<Log>, from: int, to: int): seq<Log> {
    if logs == [] then []
    else Query(logs[..|logs| - 1], from, to) + (if from <= logs[|logs| - 1].block <= to then [logs[|logs| - 1]] else [])
  }

  lemma {:induction false} QueryNothing(logs: seq<Log>, from: int, to: int)
    requires to < from
    ensures Query(logs, from, to) == []
  {
    if logs != [] {
      QueryNothing(logs[..|logs| - 1], from, to);
    }
  }

  /** How many logs lie below a block. */
  function Below(logs: seq<Log>, block: int): (n: nat)
    ensures n <= |logs|
  {
    if logs == [] || logs[|logs| - 1].block < block then |logs| else Below(logs[..|logs| - 1], block)
  }

  lemma {:induction false} BelowSplits(logs: seq<Log>, block: int)
    requires InBlockOrder(logs)
    ensures forall k :: 0 <= k < |logs| ==> (logs[k].block < block <==> k < Below(logs, block))
  {
    if logs != [] && logs[|logs| - 1].block >= block {
      var init := logs[..|logs| - 1];
      BelowSplits(init, block);
      assert forall k :: 0 <= k < |init| ==> logs[k] == init[k];
    }
  }

  /** One log more at the end: it counts only with all before it. */
  lemma BelowOfInit(logs: seq<Log>, block: int)
    requires InBlockOrder(logs) && logs != []
    ensures var init := logs[..|logs| - 1];
            if logs[|logs| - 1].block < block
            then Below(init, block) == |init| && Below(logs, block) == |logs|
            else Below(logs, block) == Below(init, block)
  {
    var init := logs[..|logs| - 1];
    if init != [] && logs[|logs| - 1].block < block {
      assert init[|init| - 1].block <= logs[|logs| - 1].block;
    }
  }

  lemma {:induction false} QueryIsStretch(logs: seq<Log>, from: int, to: int)
    requires InBlockOrder(logs) && from <= to + 1
    ensures Below(logs, from) <= Below(logs, to + 1)
            && Query(logs, from, to) == logs[Below(logs, from)..Below(logs, to + 1)]
  {
    if logs != [] {
      var init, last := logs[..|logs| - 1], logs[|logs| - 1];
      QueryIsStretch(init, from, to);
      BelowOfInit(logs, from);
      BelowOfInit(logs, to + 1);
      QueryOfLast(logs, from, to);
      if last.block < from {
        assert Query(init, from, to) == [];
      } else if last.block <= to {
        LastJoins(logs, Below(init, from));
      } else {
        StretchOfInit(logs, Below(init, from), Below(init, to + 1));
      }
    }
  }

  lemma QueryOfLast(logs: seq<Log>, from: int, to: int)
    requires logs != []
    ensures Query(logs, from, to) == Query(logs[..|logs| - 1], from, to)
                                     + if from <= logs[|logs| - 1].block <= to then [logs[|logs| - 1]] else []
  {
  }

  lemma StretchOfInit(logs: seq<Log>, i: nat, j: nat)
    requires i <= j < |logs|
    ensures logs[..|logs| - 1][i..j] + [] == logs[i..j]
  {
  }

  lemma LastJoins(logs: seq<Log>, i: nat)
    requires i < |logs|
    ensures logs[..|logs| - 1][i..] + [logs[|logs| - 1]] == logs[i..]
  {
  }

  /** A query over a chain's log is one stretch of it: all logs of the blocks asked for, in order, and no others. */
  lemma QueryIsTheRange(logs: seq<Log>, from: int, to: int) returns (i: nat, j: nat)
    requires InBlockOrder(logs) && from <= to + 1
    ensures i <= j <= |logs| && Query(logs, from, to) == logs[i..j]
    ensures forall k :: 0 <= k < |logs| ==> (from <= logs[k].block <= to <==> i <= k < j)
  {
    i, j := Below(logs, from), Below(logs, to + 1);
    QueryIsStretch(logs, from, to);
    BelowSplits(logs, from);
    BelowSplits(logs, to + 1);
  }

  /** Two adjacent ranges of a chain's log read one after the other are one range. */
  lemma QueryJoins(logs: seq<Log>, from: int, mid: int, to: int)
    requires InBlockOrder(logs) && from <= mid + 1 && mid <= to
    ensures Query(logs, from, mid) + Query(logs, mid + 1, to) == Query(logs, from, to)
  {
    QueryIsStretch(logs, from, mid);
    QueryIsStretch(logs, mid + 1, to);
    QueryIsStretch(logs, from, to);
  }

  method QueryFilterChunked(logs: seq<Log>, fromBlock: int, toBlock: int, chunk: int) returns (out: seq<Log>)
    requires InBlockOrder(logs) && chunk >= 1
    ensures out == Query(logs, fromBlock, toBlock)
  {
    if toBlock < fromBlock {
      QueryNothing(logs, fromBlock, toBlock);
      return [];
    }
    out := [];
    QueryNothing(logs, fromBlock, fromBlock - 1);
    var start := fromBlock;
    while start <= toBlock
      invariant fromBlock <= start
      invariant out == Query(logs, fromBlock, Min(start - 1, toBlock))
      decreases toBlock - start
    {
      var end := Min(start + chunk - 1, toBlock);
      QueryJoins(logs, fromBlock, start - 1, end);
      out := out + Query(logs, start, end);
      start := start + chunk;
    }
  }

  // ---------------------------------------------------------------- the scanner

  datatype Phase = Idle | Querying(from: int, to: int) | Saving

  /**
   * covered, windows and first are history: the blocks whose logs were handled, in which windows, and the very first
   * checkpoint.
   */
  datatype Scanner = Scanner(row: Option<Checkpoint>, lastBlock: int, latestSeen: int, floorBlock: int, phase: Phase,
                             covered: set<int>, windows: seq<(int, int)>, first: int)

  datatype Event =
    | Boot(current: int, fingerprint: Option<nat>)
    | SeeBlock(block: int)
    | QueryDone(ok: bool)
    | SaveDone(ok: bool)
    | Crash

  function Fresh(): Scanner {
    Scanner(None, -1, -1, -1, Idle, {}, [], 0)
  }

  function Blocks(lo: int, hi: int): (r: set<int>)
    ensures forall b :: b in r <==> lo <= b <= hi
    decreases hi - lo + 1
  {
    if hi < lo then {} else Blocks(lo, hi - 1) + {hi}
  }

  /** The loop guard, and the window of the next pass. */
  function NextPass(s: Scanner): Phase {
    if s.lastBlock >= 0 && s.latestSeen > s.lastBlock
    then Querying(Max(0, Max(s.floorBlock, s.lastBlock + 1 - RESCAN_LAG)), s.latestSeen)
    else Idle
  }

  /** Boot happens once per process; a block event starts a drain only when none is running. */
  function Apply(s: Scanner, e: Event, cfg: Settings): Scanner {
    match e
    case Boot(current, fingerprint) =>
      if s.lastBlock >= 0 || current < 0 then s
      else
        var row := Resolve(s.row, current, fingerprint, cfg);
        s.(row := Some(row), lastBlock := row.lastBlock, floorBlock := Min(row.lastBlock, current),
           first := if s.row.None? then current else s.first)
    case SeeBlock(block) =>
      var seen := s.(latestSeen := Max(s.latestSeen, block));
      if s.phase.Idle? then seen.(phase := NextPass(seen)) else seen
    case QueryDone(ok) =>
      if !s.phase.Querying? then s
      else if !ok then s.(phase := Idle)
      else s.(covered := s.covered + Blocks(s.phase.from, s.phase.to),
              windows := s.windows + [(s.phase.from, s.phase.to)],
              lastBlock := s.phase.to, phase := Saving)
    case SaveDone(ok) =>
      if !s.phase.Saving? then s
      else if !ok || s.row.None? then s.(phase := Idle)
      else
        var saved := s.(row := Some(s.row.value.(lastBlock := s.lastBlock)));
        saved.(phase := NextPass(saved))
    case Crash => s.(lastBlock := -1, latestSeen := -1, floorBlock := -1, phase := Idle)
  }

  function Run(s: Scanner, events: seq<Event>, cfg: Settings): Scanner
    decreases |events|
  {
    if events == [] then s else Run(Apply(s, events[0], cfg), events[1..], cfg)
  }

  /** A watcher process: each method runs between two awaits of the source. */
  class Watcher {
    var row: Option<Checkpoint>
    var lastBlock: int
    var latestSeen: int
    var floorBlock: int
    var draining: bool
    var window: Option<(int, int)>
    ghost var covered: set<int>
    ghost var windows: seq<(int, int)>
    ghost var first: int

    ghost function View(): Scanner
      reads this
    {
      Scanner(row, lastBlock, latestSeen, floorBlock,
              if !draining then Idle else if window.Some? then Querying(window.value.0, window.value.1) else Saving,
              covered, windows, first)
    }

    constructor ()
      ensures View() == Fresh()
    {
      row, lastBlock, latestSeen, floorBlock, draining, window := None, -1, -1, -1, false, None;
      covered, windows, first := {}, [], 0;
    }

    method Boot(current: int, fingerprint: Option<nat>, cfg: Settings)
      modifies this
      ensures View() == Apply(old(View()), Event.Boot(current, fingerprint), cfg)
      ensures old(lastBlock) < 0 && current >= 0 ==>
                && row.Some? && lastBlock == row.value.lastBlock <= current && floorBlock == lastBlock
                && (fingerprint.Some? ==> row.value.fingerprint == fingerprint)
    {
      if lastBlock >= 0 || current < 0 {
        return;
      }
      if row.None? {
        row, first := Some(Checkpoint(current, fingerprint)), current;
        lastBlock := current;
      } else {
        var last, stored := row.value.lastBlock, row.value.fingerprint;
        if fingerprint.Some? && stored.Some? && stored != fingerprint {
          last := current;
          row := Some(Checkpoint(last, fingerprint));
        } else {
          if fingerprint.Some? && stored.None? {
            row := Some(row.value.(fingerprint := fingerprint));
          }
          if last > current {
            last := current;
            row := Some(row.value.(lastBlock := last));
          } else if current - last > cfg.devRewindLag && !cfg.backfill {
            last := current;
            row := Some(row.value.(lastBlock := last));
          }
        }
        lastBlock := last;
      }
      floorBlock := Min(lastBlock, current);
    }

    /** provider.on('block'): raise latestSeen, start a drain unless one is running. */
    method OnBlock(block: int, cfg: Settings)
      modifies this
      ensures View() == Apply(old(View()), SeeBlock(block), cfg)
      ensures !old(draining) && 0 <= old(lastBlock) < block ==>
                && draining && window.Some? && window.value.1 == latestSeen >= block
                && (floorBlock <= lastBlock ==> window.value.0 <= lastBlock)
    {
      if block > latestSeen {
        latestSeen := block;
      }
      if draining {
        return;
      }
      draining := true;
      NextWindow();
    }

    /** Top of the while loop: issue the next query, or leave the drain. */
    method NextWindow()
      requires draining
      modifies this`draining, this`window
      ensures View() == old(View()).(phase := NextPass(old(View())))
    {
      if lastBlock >= 0 && latestSeen > lastBlock {
        window := Some((Max(0, Max(floorBlock, lastBlock + 1 - RESCAN_LAG)), latestSeen));
      } else {
        draining, window := false, None;
      }
    }

    method OnLogs(ok: bool, cfg: Settings)
      requires draining && window.Some?
      modifies this
      ensures View() == Apply(old(View()), QueryDone(ok), cfg)
    {
      if !ok {
        draining := false;
        return;
      }
      covered, windows := covered + Blocks(window.value.0, window.value.1), windows + [window.value];
      lastBlock := window.value.1;
      window := None;
    }

    method OnSaved(ok: bool, cfg: Settings)
      requires draining && window.None? && row.Some?
      modifies this
      ensures View() == Apply(old(View()), SaveDone(ok), cfg)
    {
      if !ok {
        draining := false;
        return;
      }
      row := Some(row.value.(lastBlock := lastBlock));
      NextWindow();
    }
  }

  // ---------------------------------------------------------------- coverage

  ghost predicate CoveredUpTo(s: Scanner, last: int) {
    forall b :: s.first < b <= last ==> b in s.covered
  }

  ghost predicate Inv(s: Scanner) {
    && s.first >= 0
    && (s.row.Some? ==> s.row.value.lastBlock >= 0 && CoveredUpTo(s, s.row.value.lastBlock))
    && (s.lastBlock >= 0 ==> s.row.Some? && s.floorBlock <= s.lastBlock && CoveredUpTo(s, s.lastBlock)
                             && s.row.value.lastBlock <= s.lastBlock)
    && (s.phase.Querying? ==>
          s.lastBlock >= 0 && s.phase.from <= s.lastBlock + 1 && s.lastBlock < s.phase.to <= s.latestSeen)
    && (s.phase.Saving? ==> s.lastBlock >= 0)
  }

  /** No boot of this event discards a backlog. */
  predicate Benign(s: Scanner, e: Event, cfg: Settings) {
    e.Boot? && s.lastBlock < 0 && s.row.Some? ==> KeepsBacklog(s.row.value, e.current, e.fingerprint, cfg)
  }

  ghost predicate AllBenign(s: Scanner, events: seq<Event>, cfg: Settings)
    decreases |events|
  {
    events == [] || (Benign(s, events[0], cfg) && AllBenign(Apply(s, events[0], cfg), events[1..], cfg))
  }

  lemma StepKeepsInv(s: Scanner, e: Event, cfg: Settings)
    requires Inv(s) && Benign(s, e, cfg)
    ensures Inv(Apply(s, e, cfg))
  {
  }

  /**
   * Block events mid-drain, failed queries and writes, crashes and restarts that keep the backlog: every block
   * after the first checkpoint and up to lastBlock has been handled, and the stored checkpoint never passes
   * what was handled.
   */
  lemma {:induction false} Coverage(s: Scanner, events: seq<Event>, cfg: Settings)
    requires Inv(s) && AllBenign(s, events, cfg)
    ensures Inv(Run(s, events, cfg))
    decreases |events|
  {
    if events != [] {
      StepKeepsInv(s, events[0], cfg);
      Coverage(Apply(s, events[0], cfg), events[1..], cfg);
    }
  }

  lemma CoverageFromScratch(events: seq<Event>, cfg: Settings)
    requires AllBenign(Fresh(), events, cfg)
    ensures var s := Run(Fresh(), events, cfg);
            && CoveredUpTo(s, s.lastBlock)
            && (s.row.Some? ==> CoveredUpTo(s, s.row.value.lastBlock))
            && (s.lastBlock >= 0 ==> s.row.Some? && s.row.value.lastBlock <= s.lastBlock)
            && (s.lastBlock >= 0 ==> forall b :: HandlesNext(s, b, cfg))
  {
    Coverage(Fresh(), events, cfg);
    var s := Run(Fresh(), events, cfg);
    if s.lastBlock >= 0 {
      forall b
        ensures HandlesNext(s, b, cfg)
      {
        EveryBlockIsHandled(s, b, cfg);
      }
    }
  }

  /** A drain that ends without an error has caught up with every block seen meanwhile. */
  lemma DrainCatchesUp(s: Scanner, e: Event, cfg: Settings)
    requires Inv(s) && s.phase != Idle && Apply(s, e, cfg).phase == Idle
    ensures e == QueryDone(false) || e == SaveDone(false) || e == Crash
            || Apply(s, e, cfg).lastBlock >= Apply(s, e, cfg).latestSeen
  {
  }

  /** Within a process lastBlock never falls, and no block below the floor is ever queried. */
  lemma ProcessStep(s: Scanner, e: Event, cfg: Settings)
    requires Inv(s) && s.lastBlock >= 0 && e != Crash && (s.phase.Querying? ==> s.floorBlock <= s.phase.from)
    ensures var t := Apply(s, e, cfg);
            && s.lastBlock <= t.lastBlock && t.floorBlock == s.floorBlock
            && (t.phase.Querying? ==> t.floorBlock <= t.phase.from)
            && forall b :: b < s.floorBlock ==> (b in t.covered <==> b in s.covered)
  {
  }

  lemma {:induction false} ProcessRun(s: Scanner, events: seq<Event>, cfg: Settings)
    requires Inv(s) && s.lastBlock >= 0 && Crash !in events && (s.phase.Querying? ==> s.floorBlock <= s.phase.from)
    ensures var t := Run(s, events, cfg);
            && s.lastBlock <= t.lastBlock
            && forall b :: b < s.floorBlock ==> (b in t.covered <==> b in s.covered)
    decreases |events|
  {
    if events != [] {
      ProcessStep(s, events[0], cfg);
      StepKeepsInv(s, events[0], cfg);
      ProcessRun(Apply(s, events[0], cfg), events[1..], cfg);
    }
  }

  /** A restart that does not keep the backlog skips the gap: its blocks stay unhandled for the life of the process. */
  lemma RewindSkipsTheGap(s: Scanner, current: int, fingerprint: Option<nat>, cfg: Settings, events: seq<Event>, b: int)
    requires s.row.Some? && s.lastBlock < 0 && s.phase == Idle && current >= 0
    requires !KeepsBacklog(s.row.value, current, fingerprint, cfg)
    requires s.row.value.lastBlock < b < current && b !in s.covered && Crash !in events
    ensures b !in Run(Apply(s, Boot(current, fingerprint), cfg), events, cfg).covered
  {
    GapStays(Apply(s, Boot(current, fingerprint), cfg), events, cfg, b);
  }

  /** Below the floor of a running process nothing is queried, whatever was covered before. */
  lemma {:induction false} GapStays(s: Scanner, events: seq<Event>, cfg: Settings, b: int)
    requires s.lastBlock >= 0 && b < s.floorBlock <= s.lastBlock && b !in s.covered && Crash !in events
    requires s.phase.Querying? ==> s.floorBlock <= s.phase.from && s.lastBlock < s.phase.to
    ensures b !in Run(s, events, cfg).covered
    decreases |events|
  {
    if events != [] {
      GapStays(Apply(s, events[0], cfg), events[1..], cfg, b);
    }
  }

  // ---------------------------------------------------------------- progress

  /** First block the next window reads: thirty before the next one, but none before the floor or before zero. */
  function RereadFrom(s: Scanner): int {
    var back := s.lastBlock + 1 - 30;
    if back < 0 && s.floorBlock < 0 then 0 else if back < s.floorBlock then s.floorBlock else back
  }

  /**
   * An idle, booted scanner that hears of a block past lastBlock reads one window, from thirty blocks back or the floor
   * up to the highest block heard of; with the query and the write done it is idle again, has counted that block, has
   * stored it as its checkpoint and has handled the logs of exactly that window on top.
   */
  lemma BlockIsHandled(s: Scanner, b: int, cfg: Settings)
    requires Inv(s) && s.lastBlock >= 0 && s.phase.Idle? && b > s.lastBlock
    ensures var t := Run(s, [SeeBlock(b), QueryDone(true), SaveDone(true)], cfg);
            && b <= t.lastBlock == t.latestSeen && (t.lastBlock == b || t.lastBlock == s.latestSeen) && t.phase.Idle?
            && t.row == Some(s.row.value.(lastBlock := t.lastBlock))
            && t.windows == s.windows + [(RereadFrom(s), t.lastBlock)]
            && (forall x :: x in t.covered <==> x in s.covered || RereadFrom(s) <= x <= t.lastBlock)
            && t.floorBlock == s.floorBlock && t.first == s.first
  {
    var events := [SeeBlock(b), QueryDone(true), SaveDone(true)];
    var to := Max(s.latestSeen, b);
    var s1 := s.(latestSeen := to, phase := Querying(RereadFrom(s), to));
    RunStep(s, events, cfg, s1);
    var s2 := s1.(covered := s.covered + Blocks(RereadFrom(s), to), windows := s.windows + [(RereadFrom(s), to)],
                  lastBlock := to, phase := Saving);
    RunStep(s1, events[1..], cfg, s2);
    RunStep(s2, events[2..], cfg, s2.(row := Some(s.row.value.(lastBlock := to)), phase := Idle));
    assert events[2..][1..] == [];
  }

  lemma RunStep(s: Scanner, events: seq<Event>, cfg: Settings, next: Scanner)
    requires events != [] && Apply(s, events[0], cfg) == next
    ensures Run(s, events, cfg) == Run(next, events[1..], cfg)
  {
  }

  /** The answers a drain waits for, all of them good; one it does not wait for changes nothing. */
  const ANSWERS := [SaveDone(true), QueryDone(true), SaveDone(true), QueryDone(true), SaveDone(true)]

  /** Once its queries and writes succeed, a scanner that hears of this block has handled all blocks up to it. */
  ghost predicate HandlesNext(s: Scanner, b: int, cfg: Settings) {
    var t := Run(s, [SeeBlock(b)] + ANSWERS, cfg);
    && t.phase.Idle? && t.lastBlock >= b && t.lastBlock >= s.lastBlock
    && (s.lastBlock < b ==> t.row.Some? && t.row.value.lastBlock >= b)
    && forall x :: s.first < x <= b ==> x in t.covered
  }

  /**
   * Whatever a booted scanner is doing when it hears of a block, once its queries and writes succeed it is idle, has
   * handled every block from the first checkpoint up to that one, and has stored a checkpoint no lower.
   */
  lemma EveryBlockIsHandled(s: Scanner, b: int, cfg: Settings)
    requires Inv(s) && s.lastBlock >= 0
    ensures HandlesNext(s, b, cfg)
  {
    var events := [SeeBlock(b)] + ANSWERS;
    NoBootIsBenign(s, events, cfg);
    Coverage(s, events, cfg);
    var s1 := Apply(s, SeeBlock(b), cfg);
    StepKeepsInv(s, SeeBlock(b), cfg);
    RunStep(s, events, cfg, s1);
    assert events[1..] == ANSWERS;
    AnswersCatchUp(s1, cfg);
  }

  lemma AnswersCatchUp(s: Scanner, cfg: Settings)
    requires Inv(s) && s.lastBlock >= 0 && (s.phase.Idle? ==> s.lastBlock >= s.latestSeen)
    ensures var t := Run(s, ANSWERS, cfg);
            && t.phase.Idle? && t.first == s.first && t.lastBlock >= s.lastBlock && t.lastBlock >= s.latestSeen
            && (s.lastBlock < s.latestSeen ==> t.row.Some? && t.row.value.lastBlock >= s.latestSeen)
  {
    var s2 := Apply(s, SaveDone(true), cfg);
    StepKeepsInv(s, SaveDone(true), cfg);
    RunStep(s, ANSWERS, cfg, s2);
    RoundTrip(s2, ANSWERS[1..], cfg);
    var s4 := AfterRound(s2, cfg);
    RoundTrip(s4, ANSWERS[1..][2..], cfg);
    assert ANSWERS[1..][2..][2..] == [];
  }

  /** One query and its write. */
  function AfterRound(s: Scanner, cfg: Settings): Scanner {
    Apply(Apply(s, QueryDone(true), cfg), SaveDone(true), cfg)
  }

  lemma RoundTrip(s: Scanner, events: seq<Event>, cfg: Settings)
    requires Inv(s) && s.lastBlock >= 0 && !s.phase.Saving? && |events| >= 2
    requires events[0] == QueryDone(true) && events[1] == SaveDone(true)
    ensures var t := AfterRound(s, cfg);
            && Run(s, events, cfg) == Run(t, events[2..], cfg) && Inv(t) && !t.phase.Saving?
            && t.lastBlock >= s.lastBlock && t.first == s.first && t.latestSeen == s.latestSeen
            && (s.phase.Idle? ==> t == s)
            && (s.phase.Querying? ==> t.lastBlock == s.phase.to && t.row == Some(s.row.value.(lastBlock := s.phase.to)))
            && (t.phase.Querying? ==> t.phase.to == t.latestSeen)
            && (s.phase.Querying? && t.phase.Idle? ==> t.lastBlock >= t.latestSeen)
  {
    RunStep(s, events, cfg, Apply(s, QueryDone(true), cfg));
    RunStep(Apply(s, QueryDone(true), cfg), events[1..], cfg, AfterRound(s, cfg));
    assert events[1..][1..] == events[2..];
    StepKeepsInv(s, QueryDone(true), cfg);
    StepKeepsInv(Apply(s, QueryDone(true), cfg), SaveDone(true), cfg);
  }

  lemma {:induction false} NoBootIsBenign(s: Scanner, events: seq<Event>, cfg: Settings)
    requires forall e :: e in events ==> !e.Boot?
    ensures AllBenign(s, events, cfg)
    decreases |events|
  {
    if events != [] {
      NoBootIsBenign(Apply(s, events[0], cfg), events[1..], cfg);
    }
  }

  // ---------------------------------------------------------------- what a boot stores

  /**
   * A boot starts from the stored block unless the fingerprints differ, the tip is behind it or the lag is not
   * acceptable, and from the tip otherwise. It leaves the chain's fingerprint in the row whenever there is one.
   */
  lemma BootWrites(s: Scanner, current: int, fingerprint: Option<nat>, cfg: Settings)
    requires s.lastBlock < 0 && current >= 0
    ensures var t := Apply(s, Boot(current, fingerprint), cfg);
            && t.row == Some(Checkpoint(t.lastBlock, if fingerprint.Some? then fingerprint
                                                     else if s.row.Some? then s.row.value.fingerprint else None))
            && (t.lastBlock != current ==>
                  && s.row.Some? && t.lastBlock == s.row.value.lastBlock < current
                  && (fingerprint.Some? && s.row.value.fingerprint.Some? ==> s.row.value.fingerprint == fingerprint)
                  && (cfg.backfill || current - s.row.value.lastBlock <= cfg.devRewindLag))
            && (s.row.Some? && s.row.value.lastBlock < t.lastBlock ==>
                  || (fingerprint.Some? && s.row.value.fingerprint.Some? && s.row.value.fingerprint != fingerprint)
                  || (!cfg.backfill && current - s.row.value.lastBlock > cfg.devRewindLag))
            && t.floorBlock == t.lastBlock <= current && t.covered == s.covered && t.windows == s.windows
            && t.first == (if s.row.None? then current else s.first)
  {
  }

  /** Every boot finds this chain. */
  ghost predicate OneChain(events: seq<Event>, chain: nat) {
    forall e :: e in events && e.Boot? ==> e.fingerprint == Some(chain)
  }

  lemma {:induction false} FingerprintStays(s: Scanner, events: seq<Event>, cfg: Settings, chain: nat)
    requires s.row.Some? && s.row.value.fingerprint == Some(chain) && OneChain(events, chain)
    ensures var t := Run(s, events, cfg); t.row.Some? && t.row.value.fingerprint == Some(chain)
    decreases |events|
  {
    if events != [] {
      FingerprintStays(Apply(s, events[0], cfg), events[1..], cfg, chain);
    }
  }

  /**
   * Once a process has booted on a chain, whatever it held before, every later restart on that chain with an
   * acceptable lag resumes from the stored checkpoint.
   */
  lemma RestartResumes(s: Scanner, first: int, events: seq<Event>, current: int, chain: nat, cfg: Settings)
    requires s.lastBlock < 0 && first >= 0 && OneChain(events, chain)
    ensures var stopped := Apply(Run(Apply(s, Boot(first, Some(chain)), cfg), events, cfg), Crash, cfg);
            && stopped.row.Some? && stopped.row.value.fingerprint == Some(chain)
            && (0 <= stopped.row.value.lastBlock <= current
                && (cfg.backfill || current - stopped.row.value.lastBlock <= cfg.devRewindLag)
                ==> var t := Apply(stopped, Boot(current, Some(chain)), cfg);
                    t.row == stopped.row && t.lastBlock == stopped.row.value.lastBlock)
  {
    FingerprintStays(Apply(s, Boot(first, Some(chain)), cfg), events, cfg, chain);
  }
}
