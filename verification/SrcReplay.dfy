/**
 * The source-chain watcher over overlapping block windows: every window handles its Filled logs first and the
 * escrow logs after, re-reading blocks it has seen (backend/src/chain/escrowSrcWatcher.ts).
 */
module SrcReplay {
  import opened Arith
  import opened Wrappers
  import opened CrossChainStore
  import opened CrossChainProtocol
  import ScanLoop

  datatype Entry = Entry(block: int, event: SrcEvent)

  /** Rows whose recorded source escrow is the clone of their own key, as the authenticity check guarantees. */
  ghost predicate Keyed(f: Fill) {
    f.srcAddr.Some? ==> f.srcAddr.value == SrcClone(f.orderHash, f.hashlock)
  }

  ghost predicate KeyedTable(fills: seq<Fill>) {
    Unique(fills) && forall i :: 0 <= i < |fills| ==> Keyed(fills[i])
  }

  ghost predicate Sound(fills: seq<Fill>) {
    KeyedTable(fills) && forall i :: 0 <= i < |fills| ==> EvidenceFitsStatus(fills[i])
  }

  // ---------------------------------------------------------------- handlers

  /** SELECT ... WHERE escrow_src_addr = emitter; the first row. */
  function Owner(fills: seq<Fill>, emitter: Address): Option<Fill> {
    if fills == [] then None
    else if fills[0].srcAddr == Some(emitter) then Some(fills[0])
    else Owner(fills[1..], emitter)
  }

  function EvidenceOf(e: SrcEvent): Evidence {
    match e
    case Filled(_, _, filler, escrow) => SrcFilled(escrow, filler)
    case Withdrawn(_, secret) => SecretOut(secret)
    case Cancelled(_) => SrcCancelled
  }

  function See(fills: seq<Fill>, e: SrcEvent): (r: seq<Fill>)
    ensures |r| == |fills|
  {
    match e
    case Filled(orderHash, hashlock, filler, escrow) =>
      if escrow != SrcClone(orderHash, hashlock) then fills else Record(fills, orderHash, hashlock, EvidenceOf(e))
    case _ =>
      match Owner(fills, e.emitter)
      case None => fills
      case Some(f) => Record(fills, f.orderHash, f.hashlock, EvidenceOf(e))
  }

  function SeeAll(fills: seq<Fill>, events: seq<SrcEvent>): (r: seq<Fill>)
    ensures |r| == |fills|
    decreases |events|
  {
    if events == [] then fills else SeeAll(See(fills, events[0]), events[1..])
  }

  function Only(events: seq<SrcEvent>, filled: bool): seq<SrcEvent> {
    if events == [] then []
    else (if events[0].Filled? == filled then [events[0]] else []) + Only(events[1..], filled)
  }

  /** Logs of the blocks lo..hi, in log order. */
  function Events(log: seq<Entry>, lo: int, hi: int): seq<SrcEvent> {
    if log == [] then []
    else (if lo <= log[0].block <= hi then [log[0].event] else []) + Events(log[1..], lo, hi)
  }

  /** One pass of the drain loop. */
  function SeeWindow(fills: seq<Fill>, log: seq<Entry>, lo: int, hi: int): seq<Fill> {
    var events := Events(log, lo, hi);
    SeeAll(SeeAll(fills, Only(events, true)), Only(events, false))
  }

  function SeeWindows(fills: seq<Fill>, log: seq<Entry>, windows: seq<(int, int)>): seq<Fill>
    decreases |windows|
  {
    if windows == [] then fills else SeeWindows(SeeWindow(fills, log, windows[0].0, windows[0].1), log, windows[1..])
  }

  /** Windows never start before the scanner's start, never leave a gap, and may overlap freely. */
  predicate GapFree(start: int, done: int, windows: seq<(int, int)>)
    decreases |windows|
  {
    windows == [] || (start <= windows[0].0 <= done + 1 && GapFree(start, Max(done, windows[0].1), windows[1..]))
  }

  function Last(done: int, windows: seq<(int, int)>): int
    decreases |windows|
  {
    if windows == [] then done else Last(Max(done, windows[0].1), windows[1..])
  }

  // ---------------------------------------------------------------- what the chain guarantees about its log

  predicate IsFilledOf(e: SrcEvent, orderHash: nat, hashlock: Hashlock) {
    e.Filled? && e.orderHash == orderHash && e.hashlock == hashlock && e.escrow == SrcClone(orderHash, hashlock)
  }

  predicate IsSettledOf(e: SrcEvent, orderHash: nat, hashlock: Hashlock) {
    !e.Filled? && e.emitter == SrcClone(orderHash, hashlock)
  }

  /** Blocks in order; each clone is created once, and settles at most once, after its creation. */
  ghost predicate ChainLog(log: seq<Entry>) {
    forall i, j :: 0 <= i < j < |log| ==>
      log[i].block <= log[j].block && Compatible(log[i].event, log[j].event)
  }

  /** e may be logged before e'. */
  ghost predicate Compatible(e: SrcEvent, e': SrcEvent) {
    forall orderHash, hashlock ::
      && !(IsFilledOf(e, orderHash, hashlock) && IsFilledOf(e', orderHash, hashlock))
      && !(IsSettledOf(e, orderHash, hashlock) && IsSettledOf(e', orderHash, hashlock))
      && !(IsSettledOf(e, orderHash, hashlock) && IsFilledOf(e', orderHash, hashlock))
  }

  // ---------------------------------------------------------------- one row

  function SeeRow(f: Fill, e: SrcEvent): Fill {
    if IsFilledOf(e, f.orderHash, f.hashlock) || (!e.Filled? && f.srcAddr == Some(e.emitter))
    then Updated(f, f.orderHash, f.hashlock, EvidenceOf(e)) else f
  }

  function RowAll(f: Fill, events: seq<SrcEvent>): Fill
    decreases |events|
  {
    if events == [] then f else RowAll(SeeRow(f, events[0]), events[1..])
  }

  lemma OwnerIsKey(fills: seq<Fill>, emitter: Address)
    requires forall i :: 0 <= i < |fills| ==> Keyed(fills[i])
    ensures Owner(fills, emitter).None? ==> forall i :: 0 <= i < |fills| ==> fills[i].srcAddr != Some(emitter)
    ensures Owner(fills, emitter).Some? ==>
              Owner(fills, emitter).value in fills && Owner(fills, emitter).value.srcAddr == Some(emitter)
  {
  }

  lemma SeeIsRowwise(fills: seq<Fill>, e: SrcEvent, i: nat)
    requires KeyedTable(fills) && i < |fills|
    ensures See(fills, e)[i] == SeeRow(fills[i], e)
  {
    if !e.Filled? {
      OwnerIsKey(fills, e.emitter);
      var owner := Owner(fills, e.emitter);
      if owner.Some? {
        assert Keyed(fills[i]);
        var k :| 0 <= k < |fills| && fills[k] == owner.value;
        assert Keyed(fills[k]);
        SameKeySameRow(fills, i, k);
      }
    }
  }

  lemma SameKeySameRow(fills: seq<Fill>, i: nat, k: nat)
    requires Unique(fills) && i < |fills| && k < |fills|
    ensures Matches(fills[i], fills[k].orderHash, fills[k].hashlock) ==> i == k
  {
  }

  lemma SeeKeepsKeyed(fills: seq<Fill>, e: SrcEvent)
    requires KeyedTable(fills)
    ensures KeyedTable(See(fills, e))
  {
    var rows := See(fills, e);
    forall i | 0 <= i < |rows|
      ensures Keyed(rows[i]) && rows[i].orderHash == fills[i].orderHash && rows[i].hashlock == fills[i].hashlock
    {
      SeeIsRowwise(fills, e, i);
      assert Keyed(fills[i]);
    }
    forall i, j | 0 <= i < j < |rows|
      ensures !Matches(rows[i], rows[j].orderHash, rows[j].hashlock)
    {
      assert !Matches(fills[i], fills[j].orderHash, fills[j].hashlock);
    }
  }

  lemma {:induction false} SeeAllIsRowwise(fills: seq<Fill>, events: seq<SrcEvent>, i: nat)
    requires KeyedTable(fills) && i < |fills|
    ensures KeyedTable(SeeAll(fills, events)) && SeeAll(fills, events)[i] == RowAll(fills[i], events)
    decreases |events|
  {
    if events != [] {
      SeeIsRowwise(fills, events[0], i);
      SeeKeepsKeyed(fills, events[0]);
      SeeAllIsRowwise(See(fills, events[0]), events[1..], i);
    }
  }

  // ---------------------------------------------------------------- a row only knows two events

  /** Of everything logged for this row's key, at most these two. */
  ghost predicate OnlyThese(f: Fill, events: seq<SrcEvent>, filled: SrcEvent, settled: SrcEvent) {
    && IsFilledOf(filled, f.orderHash, f.hashlock) && IsSettledOf(settled, f.orderHash, f.hashlock)
    && forall e :: e in events ==>
         (IsFilledOf(e, f.orderHash, f.hashlock) ==> e == filled)
           && (IsSettledOf(e, f.orderHash, f.hashlock) ==> e == settled)
  }

  /** The row after the two events, in chain order, as far as each is known. */
  function After(f: Fill, filled: SrcEvent, hasFilled: bool, settled: SrcEvent, hasSettled: bool): Fill {
    var g := if hasFilled then SeeRow(f, filled) else f;
    if hasSettled then SeeRow(g, settled) else g
  }

  lemma SeeRowKeeps(f: Fill, e: SrcEvent)
    requires Keyed(f)
    ensures var g := SeeRow(f, e); Keyed(g) && g.orderHash == f.orderHash && g.hashlock == f.hashlock
    ensures !IsFilledOf(e, f.orderHash, f.hashlock) && !IsSettledOf(e, f.orderHash, f.hashlock) ==> SeeRow(f, e) == f
  {
  }

  /** Seen twice is seen once, and the creation seen again after the settlement changes nothing. */
  lemma Absorbs(f: Fill, filled: SrcEvent, settled: SrcEvent)
    requires Keyed(f) && EvidenceFitsStatus(f)
    requires IsFilledOf(filled, f.orderHash, f.hashlock) && IsSettledOf(settled, f.orderHash, f.hashlock)
    ensures SeeRow(SeeRow(f, filled), filled) == SeeRow(f, filled)
    ensures SeeRow(SeeRow(f, settled), settled) == SeeRow(f, settled)
    ensures var g := SeeRow(SeeRow(f, filled), settled); SeeRow(g, filled) == g && SeeRow(g, settled) == g
    ensures EvidenceFitsStatus(SeeRow(f, filled)) && EvidenceFitsStatus(SeeRow(f, settled))
  {
  }

  /** Filled logs alone, or escrow logs alone, come down to their one relevant event. */
  lemma {:induction false} FoldOne(f: Fill, events: seq<SrcEvent>, e: SrcEvent)
    requires Keyed(f) && EvidenceFitsStatus(f)
    requires IsFilledOf(e, f.orderHash, f.hashlock) || IsSettledOf(e, f.orderHash, f.hashlock)
    requires forall x :: x in events && x != e ==>
               !IsFilledOf(x, f.orderHash, f.hashlock) && !IsSettledOf(x, f.orderHash, f.hashlock)
    ensures RowAll(f, events) == if e in events then SeeRow(f, e) else f
    decreases |events|
  {
    if events != [] {
      SeeRowKeeps(f, events[0]);
      AbsorbsOne(f, e);
      FoldOne(SeeRow(f, events[0]), events[1..], e);
    }
  }

  lemma AbsorbsOne(f: Fill, e: SrcEvent)
    requires Keyed(f) && EvidenceFitsStatus(f)
    requires IsFilledOf(e, f.orderHash, f.hashlock) || IsSettledOf(e, f.orderHash, f.hashlock)
    ensures SeeRow(SeeRow(f, e), e) == SeeRow(f, e) && EvidenceFitsStatus(SeeRow(f, e))
  {
  }

  lemma {:induction false} OnlyContains(events: seq<SrcEvent>, filled: bool, e: SrcEvent)
    ensures e in Only(events, filled) <==> e in events && e.Filled? == filled
  {
    if events != [] {
      OnlyContains(events[1..], filled, e);
    }
  }

  /** One window of the scanner, seen by one row. */
  lemma WindowOnRow(f: Fill, events: seq<SrcEvent>, filled: SrcEvent, settled: SrcEvent)
    requires Keyed(f) && EvidenceFitsStatus(f) && OnlyThese(f, events, filled, settled)
    ensures RowAll(RowAll(f, Only(events, true)), Only(events, false))
         == After(f, filled, filled in events, settled, settled in events)
  {
    forall e
      ensures e in Only(events, true) <==> e in events && e.Filled?
      ensures e in Only(events, false) <==> e in events && !e.Filled?
    {
      OnlyContains(events, true, e);
      OnlyContains(events, false, e);
    }
    FoldOne(f, Only(events, true), filled);
    var g := RowAll(f, Only(events, true));
    SeeRowKeeps(f, filled);
    Absorbs(f, filled, settled);
    FoldOne(g, Only(events, false), settled);
  }

  /** One in-order pass, seen by one row. */
  lemma {:induction false} PassOnRow(f: Fill, events: seq<SrcEvent>, filled: SrcEvent, settled: SrcEvent)
    requires Keyed(f) && EvidenceFitsStatus(f) && OnlyThese(f, events, filled, settled)
    requires forall i, j :: 0 <= i < j < |events| ==> !(events[i] == settled && events[j] == filled)
    ensures RowAll(f, events) == After(f, filled, filled in events, settled, settled in events)
    decreases |events|
  {
    if events != [] {
      var e, rest := events[0], events[1..];
      SeeRowKeeps(f, e);
      Absorbs(f, filled, settled);
      if e == settled {
        FoldOne(SeeRow(f, e), rest, settled);
      } else {
        PassOnRow(SeeRow(f, e), rest, filled, settled);
      }
    }
  }

  // ---------------------------------------------------------------- where the two events are

  lemma {:induction false} EventsContain(log: seq<Entry>, lo: int, hi: int, e: SrcEvent)
    ensures e in Events(log, lo, hi) <==> exists p :: 0 <= p < |log| && log[p].event == e && lo <= log[p].block <= hi
  {
    if log != [] {
      EventsContain(log[1..], lo, hi, e);
      if p :| 0 <= p < |log| && log[p].event == e && lo <= log[p].block <= hi {
        assert p > 0 ==> log[1..][p - 1] == log[p];
      }
      if p :| 0 <= p < |log[1..]| && log[1..][p].event == e && lo <= log[1..][p].block <= hi {
        assert log[p + 1] == log[1..][p];
      }
    }
  }

  /** The log names these two events, and no others, for the key. */
  ghost predicate Names(log: seq<Entry>, orderHash: nat, hashlock: Hashlock, filled: SrcEvent, settled: SrcEvent) {
    && IsFilledOf(filled, orderHash, hashlock) && IsSettledOf(settled, orderHash, hashlock)
    && forall p :: 0 <= p < |log| ==>
         (IsFilledOf(log[p].event, orderHash, hashlock) ==> log[p].event == filled)
         && (IsSettledOf(log[p].event, orderHash, hashlock) ==> log[p].event == settled)
  }

  lemma TheTwo(log: seq<Entry>, orderHash: nat, hashlock: Hashlock) returns (filled: SrcEvent, settled: SrcEvent)
    requires ChainLog(log)
    ensures Names(log, orderHash, hashlock, filled, settled)
  {
    var escrow := SrcClone(orderHash, hashlock);
    if p :| 0 <= p < |log| && IsFilledOf(log[p].event, orderHash, hashlock) {
      filled := log[p].event;
      forall q | 0 <= q < |log| && IsFilledOf(log[q].event, orderHash, hashlock)
        ensures log[q].event == filled
      {
        AtMostOne(log, orderHash, hashlock, p, q);
      }
    } else {
      filled := Filled(orderHash, hashlock, escrow, escrow);
    }
    if p :| 0 <= p < |log| && IsSettledOf(log[p].event, orderHash, hashlock) {
      settled := log[p].event;
      forall q | 0 <= q < |log| && IsSettledOf(log[q].event, orderHash, hashlock)
        ensures log[q].event == settled
      {
        AtMostOne(log, orderHash, hashlock, p, q);
      }
    } else {
      settled := Cancelled(escrow);
    }
  }

  lemma AtMostOne(log: seq<Entry>, orderHash: nat, hashlock: Hashlock, p: nat, q: nat)
    requires ChainLog(log) && p < |log| && q < |log|
    ensures IsFilledOf(log[p].event, orderHash, hashlock) && IsFilledOf(log[q].event, orderHash, hashlock) ==> p == q
    ensures IsSettledOf(log[p].event, orderHash, hashlock) && IsSettledOf(log[q].event, orderHash, hashlock) ==> p == q
    ensures IsSettledOf(log[p].event, orderHash, hashlock) && IsFilledOf(log[q].event, orderHash, hashlock) ==> q < p
  {
  }

  lemma NamesInWindow(log: seq<Entry>, f: Fill, filled: SrcEvent, settled: SrcEvent, lo: int, hi: int)
    requires Names(log, f.orderHash, f.hashlock, filled, settled)
    ensures OnlyThese(f, Events(log, lo, hi), filled, settled)
  {
  }

  /** A relevant event has one block: it is in a window exactly when that block is. */
  lemma InWindows(log: seq<Entry>, orderHash: nat, hashlock: Hashlock, e: SrcEvent, start: int, done: int, lo: int,
                  hi: int)
    requires ChainLog(log) && (IsFilledOf(e, orderHash, hashlock) || IsSettledOf(e, orderHash, hashlock))
    requires start <= lo <= done + 1
    ensures e in Events(log, start, Max(done, hi)) <==> e in Events(log, start, done) || e in Events(log, lo, hi)
  {
  }

  /** The creation is never later than the settlement. */
  lemma CreationFirst(log: seq<Entry>, orderHash: nat, hashlock: Hashlock, filled: SrcEvent, settled: SrcEvent,
                      start: int, done: int, lo: int, hi: int)
    requires ChainLog(log) && IsFilledOf(filled, orderHash, hashlock) && IsSettledOf(settled, orderHash, hashlock)
             && start <= lo
    ensures settled in Events(log, start, done) && filled in Events(log, lo, hi) ==> filled in Events(log, start, done)
  {
    EventsContain(log, start, done, settled);
    EventsContain(log, lo, hi, filled);
    EventsContain(log, start, done, filled);
    if settled in Events(log, start, done) && filled in Events(log, lo, hi) {
      var p :| 0 <= p < |log| && log[p].event == settled && start <= log[p].block <= done;
      var q :| 0 <= q < |log| && log[q].event == filled && lo <= log[q].block <= hi;
      AtMostOne(log, orderHash, hashlock, p, q);
    }
  }

  /** Knowing some of the events and then more of them is knowing all of them, if the creation never comes late. */
  lemma AfterMerges(f: Fill, filled: SrcEvent, hadFilled: bool, sawFilled: bool, settled: SrcEvent, hadSettled: bool,
                    sawSettled: bool)
    requires Keyed(f) && EvidenceFitsStatus(f)
    requires IsFilledOf(filled, f.orderHash, f.hashlock) && IsSettledOf(settled, f.orderHash, f.hashlock)
    requires hadSettled && sawFilled ==> hadFilled
    ensures After(After(f, filled, hadFilled, settled, hadSettled), filled, sawFilled, settled, sawSettled)
         == After(f, filled, hadFilled || sawFilled, settled, hadSettled || sawSettled)
  {
  }

  lemma AfterKeeps(f: Fill, filled: SrcEvent, hasFilled: bool, settled: SrcEvent, hasSettled: bool)
    requires Keyed(f) && EvidenceFitsStatus(f)
    requires IsFilledOf(filled, f.orderHash, f.hashlock) && IsSettledOf(settled, f.orderHash, f.hashlock)
    ensures var g := After(f, filled, hasFilled, settled, hasSettled);
            Keyed(g) && EvidenceFitsStatus(g) && g.orderHash == f.orderHash && g.hashlock == f.hashlock
  {
  }

  // ---------------------------------------------------------------- rescanning equals one pass

  ghost predicate Known(log: seq<Entry>, start: int, done: int, f: Fill, filled: SrcEvent, settled: SrcEvent, g: Fill) {
    g == After(f, filled, filled in Events(log, start, done), settled, settled in Events(log, start, done))
  }

  lemma WindowStep(fills: seq<Fill>, log: seq<Entry>, start: int, done: int, lo: int, hi: int, i: nat,
                   f: Fill, filled: SrcEvent, settled: SrcEvent)
    requires ChainLog(log) && KeyedTable(fills) && i < |fills| && Keyed(f) && EvidenceFitsStatus(f)
    requires Names(log, f.orderHash, f.hashlock, filled, settled) && start <= lo <= done + 1
    requires Known(log, start, done, f, filled, settled, fills[i])
    ensures KeyedTable(SeeWindow(fills, log, lo, hi))
    ensures Known(log, start, Max(done, hi), f, filled, settled, SeeWindow(fills, log, lo, hi)[i])
  {
    var events := Events(log, lo, hi);
    var hadFilled, hadSettled := filled in Events(log, start, done), settled in Events(log, start, done);
    SeeAllIsRowwise(fills, Only(events, true), i);
    SeeAllIsRowwise(SeeAll(fills, Only(events, true)), Only(events, false), i);
    AfterKeeps(f, filled, hadFilled, settled, hadSettled);
    NamesInWindow(log, fills[i], filled, settled, lo, hi);
    WindowOnRow(fills[i], events, filled, settled);
    CreationFirst(log, f.orderHash, f.hashlock, filled, settled, start, done, lo, hi);
    AfterMerges(f, filled, hadFilled, filled in events, settled, hadSettled, settled in events);
    InWindows(log, f.orderHash, f.hashlock, filled, start, done, lo, hi);
    InWindows(log, f.orderHash, f.hashlock, settled, start, done, lo, hi);
  }

  lemma {:induction false} WindowsOnRow(fills: seq<Fill>, log: seq<Entry>, start: int, done: int,
                                        windows: seq<(int, int)>, i: nat,
                                        f: Fill, filled: SrcEvent, settled: SrcEvent)
    requires ChainLog(log) && KeyedTable(fills) && i < |fills| && Keyed(f) && EvidenceFitsStatus(f)
    requires Names(log, f.orderHash, f.hashlock, filled, settled) && GapFree(start, done, windows)
    requires Known(log, start, done, f, filled, settled, fills[i])
    ensures |SeeWindows(fills, log, windows)| == |fills|
    ensures Known(log, start, Last(done, windows), f, filled, settled, SeeWindows(fills, log, windows)[i])
    decreases |windows|
  {
    if windows != [] {
      var (lo, hi) := windows[0];
      WindowStep(fills, log, start, done, lo, hi, i, f, filled, settled);
      WindowsOnRow(SeeWindow(fills, log, lo, hi), log, start, Max(done, hi), windows[1..], i, f, filled, settled);
    }
  }

  lemma {:induction false} LogOrder(log: seq<Entry>, lo: int, hi: int, i: nat, j: nat)
    requires ChainLog(log) && i < j < |Events(log, lo, hi)|
    ensures Compatible(Events(log, lo, hi)[i], Events(log, lo, hi)[j])
    decreases |log|
  {
    var here := lo <= log[0].block <= hi;
    var rest := Events(log[1..], lo, hi);
    if !here {
      LogOrder(log[1..], lo, hi, i, j);
    } else if i > 0 {
      LogOrder(log[1..], lo, hi, i - 1, j - 1);
    } else {
      EventsContain(log[1..], lo, hi, rest[j - 1]);
      var p :| 0 <= p < |log[1..]| && log[1..][p].event == rest[j - 1];
      assert Compatible(log[0].event, log[p + 1].event);
    }
  }

  lemma PassOverRow(fills: seq<Fill>, log: seq<Entry>, lo: int, hi: int, i: nat, filled: SrcEvent, settled: SrcEvent)
    requires ChainLog(log) && KeyedTable(fills) && i < |fills| && EvidenceFitsStatus(fills[i])
    requires Names(log, fills[i].orderHash, fills[i].hashlock, filled, settled)
    ensures Known(log, lo, hi, fills[i], filled, settled, SeeAll(fills, Events(log, lo, hi))[i])
  {
    var f, events := fills[i], Events(log, lo, hi);
    SeeAllIsRowwise(fills, events, i);
    NamesInWindow(log, f, filled, settled, lo, hi);
    forall a, b | 0 <= a < b < |events|
      ensures !(events[a] == settled && events[b] == filled)
    {
      LogOrder(log, lo, hi, a, b);
    }
    PassOnRow(f, events, filled, settled);
  }

  lemma {:induction false} NothingBefore(log: seq<Entry>, start: int)
    ensures Events(log, start, start - 1) == []
  {
    if log != [] {
      NothingBefore(log[1..], start);
    }
  }

  /**
   * Any gap-free sequence of overlapping windows, each handling creations first, leaves the table exactly as
   * one in-order pass over the same blocks does.
   */
  lemma RescanIsOnePass(fills: seq<Fill>, log: seq<Entry>, start: int, windows: seq<(int, int)>)
    requires ChainLog(log) && Sound(fills)
    requires GapFree(start, start - 1, windows)
    ensures SeeWindows(fills, log, windows) == SeeAll(fills, Events(log, start, Last(start - 1, windows)))
  {
    NothingBefore(log, start);
    SeeWindowsLength(fills, log, windows);
    forall i | 0 <= i < |fills|
      ensures SeeWindows(fills, log, windows)[i] == SeeAll(fills, Events(log, start, Last(start - 1, windows)))[i]
    {
      var filled, settled := TheTwo(log, fills[i].orderHash, fills[i].hashlock);
      WindowsOnRow(fills, log, start, start - 1, windows, i, fills[i], filled, settled);
      PassOverRow(fills, log, start, Last(start - 1, windows), i, filled, settled);
    }
  }

  lemma {:induction false} SeeWindowsLength(fills: seq<Fill>, log: seq<Entry>, windows: seq<(int, int)>)
    ensures |SeeWindows(fills, log, windows)| == |fills|
    decreases |windows|
  {
    if windows != [] {
      SeeWindowsLength(SeeWindow(fills, log, windows[0].0, windows[0].1), log, windows[1..]);
    }
  }

  /** Applying a window again is a no-op. */
  lemma ReapplyingIsNoOp(fills: seq<Fill>, log: seq<Entry>, lo: int, hi: int)
    requires ChainLog(log) && Sound(fills)
    requires lo <= hi
    ensures SeeWindow(SeeWindow(fills, log, lo, hi), log, lo, hi) == SeeWindow(fills, log, lo, hi)
  {
    var w := (lo, hi);
    RescanIsOnePass(fills, log, lo, [w]);
    RescanIsOnePass(fills, log, lo, [w, w]);
    var once := SeeWindow(fills, log, lo, hi);
    assert [w][1..] == [] && [w, w][1..] == [w];
    assert SeeWindows(fills, log, [w]) == SeeWindows(once, log, []);
    assert SeeWindows(fills, log, [w, w]) == SeeWindows(once, log, [w]);
    assert SeeWindows(once, log, [w]) == SeeWindows(SeeWindow(once, log, lo, hi), log, []);
  }

  // ---------------------------------------------------------------- what a row comes to show

  ghost predicate Logged(log: seq<Entry>, lo: int, hi: int, e: SrcEvent) {
    exists p :: 0 <= p < |log| && log[p].event == e && lo <= log[p].block <= hi
  }

  /**
   * What an authorized row shows once the blocks lo..hi are read: nothing new without its own filler's lock, then the
   * escrow; on top of it the secret of a withdrawal or the slashing of a cancellation. The rest of the row stays.
   */
  ghost predicate Shows(log: seq<Entry>, lo: int, hi: int, f: Fill, g: Fill) {
    var slot := SrcClone(f.orderHash, f.hashlock);
    var locked := f.(status := SrcLocked, srcAddr := Some(slot));
    if !Logged(log, lo, hi, Filled(f.orderHash, f.hashlock, f.filler, slot)) then g == f
    else
      && (forall secret ::
            Logged(log, lo, hi, Withdrawn(slot, secret)) ==> g == locked.(status := Revealed, secret := Some(secret)))
      && (Logged(log, lo, hi, Cancelled(slot)) ==> g == locked.(status := Slashed))
      && ((forall secret :: !Logged(log, lo, hi, Withdrawn(slot, secret))) && !Logged(log, lo, hi, Cancelled(slot)) ==>
            g == locked)
  }

  lemma LoggedIsEvent(log: seq<Entry>, lo: int, hi: int, e: SrcEvent)
    ensures Logged(log, lo, hi, e) <==> e in Events(log, lo, hi)
  {
    EventsContain(log, lo, hi, e);
  }

  /** Whatever is logged for the key is one of the two events named. */
  lemma LoggedIsNamed(log: seq<Entry>, lo: int, hi: int, f: Fill, filled: SrcEvent, settled: SrcEvent, e: SrcEvent)
    requires Names(log, f.orderHash, f.hashlock, filled, settled) && Logged(log, lo, hi, e)
    ensures IsFilledOf(e, f.orderHash, f.hashlock) ==> e == filled
    ensures IsSettledOf(e, f.orderHash, f.hashlock) ==> e == settled
  {
  }

  lemma LockRead(f: Fill, filled: SrcEvent)
    requires f.status == Authorized && IsFilledOf(filled, f.orderHash, f.hashlock)
    ensures SeeRow(f, filled)
         == if filled.filler == f.filler
            then f.(status := SrcLocked, srcAddr := Some(SrcClone(f.orderHash, f.hashlock))) else f
  {
  }

  lemma SettlementRead(f: Fill, settled: SrcEvent)
    requires f.srcAddr == (if f.status == SrcLocked then Some(SrcClone(f.orderHash, f.hashlock)) else None)
    requires IsSettledOf(settled, f.orderHash, f.hashlock)
    ensures SeeRow(f, settled)
         == if f.status != SrcLocked then f
            else if settled.Withdrawn? then f.(status := Revealed, secret := Some(settled.secret))
            else f.(status := Slashed)
  {
  }

  lemma PassShows(fills: seq<Fill>, log: seq<Entry>, lo: int, hi: int, i: nat)
    requires ChainLog(log) && Sound(fills) && i < |fills| && fills[i].status == Authorized
    ensures Shows(log, lo, hi, fills[i], SeeAll(fills, Events(log, lo, hi))[i])
  {
    var f, g := fills[i], SeeAll(fills, Events(log, lo, hi))[i];
    var slot := SrcClone(f.orderHash, f.hashlock);
    var filled, settled := TheTwo(log, f.orderHash, f.hashlock);
    PassOverRow(fills, log, lo, hi, i, filled, settled);
    LoggedIsEvent(log, lo, hi, filled);
    LoggedIsEvent(log, lo, hi, settled);
    LockRead(f, filled);
    SettlementRead(SeeRow(f, filled), settled);
    SettlementRead(f, settled);
    forall e | Logged(log, lo, hi, e)
      ensures IsFilledOf(e, f.orderHash, f.hashlock) ==> e == filled
      ensures IsSettledOf(e, f.orderHash, f.hashlock) ==> e == settled
    {
      LoggedIsNamed(log, lo, hi, f, filled, settled, e);
    }
    AfterShows(log, lo, hi, f, filled, settled, g);
  }

  lemma AfterShows(log: seq<Entry>, lo: int, hi: int, f: Fill, filled: SrcEvent, settled: SrcEvent, g: Fill)
    requires f.status == Authorized && f.srcAddr.None?
    requires IsFilledOf(filled, f.orderHash, f.hashlock) && IsSettledOf(settled, f.orderHash, f.hashlock)
    requires g == After(f, filled, Logged(log, lo, hi, filled), settled, Logged(log, lo, hi, settled))
    requires forall e :: Logged(log, lo, hi, e) ==> (IsFilledOf(e, f.orderHash, f.hashlock) ==> e == filled)
                                                    && (IsSettledOf(e, f.orderHash, f.hashlock) ==> e == settled)
    ensures Shows(log, lo, hi, f, g)
  {
    LockRead(f, filled);
    SettlementRead(f, settled);
    SettlementRead(SeeRow(f, filled), settled);
    var slot := SrcClone(f.orderHash, f.hashlock);
    assert settled == Cancelled(slot) || settled == Withdrawn(slot, settled.secret);
  }

  // ---------------------------------------------------------------- the whole watcher

  /** Every boot finds the same chain, no lower than the checkpoint, and an acceptable lag. */
  predicate Steady(s: ScanLoop.Scanner, e: ScanLoop.Event, cfg: ScanLoop.Settings) {
    e.Boot? && s.lastBlock < 0 && s.row.Some? ==>
      s.row.value.lastBlock <= e.current && ScanLoop.KeepsBacklog(s.row.value, e.current, e.fingerprint, cfg)
  }

  ghost predicate AllSteady(s: ScanLoop.Scanner, events: seq<ScanLoop.Event>, cfg: ScanLoop.Settings)
    decreases |events|
  {
    events == [] || (Steady(s, events[0], cfg) && AllSteady(ScanLoop.Apply(s, events[0], cfg), events[1..], cfg))
  }

  /** Last block of any window so far, or the first checkpoint. */
  function Reach(s: ScanLoop.Scanner): int {
    Max(s.first, Last(s.first - 1, s.windows))
  }

  /** The scanner never resumes past its windows, and never before the first checkpoint. */
  ghost predicate WindowsOk(s: ScanLoop.Scanner) {
    && 0 <= s.first && GapFree(s.first, s.first - 1, s.windows) && s.first - 1 <= Last(s.first - 1, s.windows)
    && (s.row.None? ==> s.windows == [])
    && (s.row.Some? ==> s.first <= s.row.value.lastBlock <= Reach(s))
    && (s.lastBlock >= 0 ==> s.row.Some? && s.first <= s.floorBlock <= s.lastBlock <= Reach(s))
    && (s.phase.Querying? ==> s.lastBlock >= 0 && s.first <= s.phase.from <= s.lastBlock < s.phase.to)
    && (s.phase.Saving? ==> s.lastBlock >= 0)
  }

  lemma {:induction false} GapFreeAppend(start: int, done: int, windows: seq<(int, int)>, w: (int, int))
    requires GapFree(start, done, windows) && start <= w.0 <= Last(done, windows) + 1
    ensures GapFree(start, done, windows + [w]) && Last(done, windows + [w]) == Max(Last(done, windows), w.1)
    decreases |windows|
  {
    if windows == [] {
      assert [] + [w] == [w] && [w][1..] == [];
    } else {
      assert (windows + [w])[1..] == windows[1..] + [w];
      GapFreeAppend(start, Max(done, windows[0].1), windows[1..], w);
    }
  }

  lemma WindowsStep(s: ScanLoop.Scanner, e: ScanLoop.Event, cfg: ScanLoop.Settings)
    requires WindowsOk(s) && Steady(s, e, cfg)
    ensures WindowsOk(ScanLoop.Apply(s, e, cfg))
  {
    if e.QueryDone? && e.ok && s.phase.Querying? {
      GapFreeAppend(s.first, s.first - 1, s.windows, (s.phase.from, s.phase.to));
    }
  }

  lemma {:induction false} WindowsRun(s: ScanLoop.Scanner, events: seq<ScanLoop.Event>, cfg: ScanLoop.Settings)
    requires WindowsOk(s) && AllSteady(s, events, cfg)
    ensures WindowsOk(ScanLoop.Run(s, events, cfg))
    decreases |events|
  {
    if events != [] {
      WindowsStep(s, events[0], cfg);
      WindowsRun(ScanLoop.Apply(s, events[0], cfg), events[1..], cfg);
    }
  }

  /**
   * The table after the scanner's windows is that of one pass, and lastBlock never claims more than the pass includes.
   */
  ghost predicate OnePass(fills: seq<Fill>, log: seq<Entry>, s: ScanLoop.Scanner) {
    && SeeWindows(fills, log, s.windows) == SeeAll(fills, Events(log, s.first, Last(s.first - 1, s.windows)))
    && s.lastBlock <= Reach(s)
  }

  lemma ScannerRescans(fills: seq<Fill>, log: seq<Entry>, s: ScanLoop.Scanner)
    requires ChainLog(log) && Sound(fills) && WindowsOk(s)
    ensures OnePass(fills, log, s)
  {
    RescanIsOnePass(fills, log, s.first, s.windows);
  }

  lemma SteadyRunIsOk(events: seq<ScanLoop.Event>, cfg: ScanLoop.Settings)
    requires AllSteady(ScanLoop.Fresh(), events, cfg)
    ensures WindowsOk(ScanLoop.Run(ScanLoop.Fresh(), events, cfg))
  {
    WindowsRun(ScanLoop.Fresh(), events, cfg);
  }

  /**
   * The scanner and the handlers together: whatever blocks, failures, crashes and restarts a steady watcher sees,
   * the table it leaves is that of one in-order pass from its first checkpoint on, and it never counts a block as
   * done that this pass does not include.
   */
  lemma WatcherEqualsOnePass(fills: seq<Fill>, log: seq<Entry>, events: seq<ScanLoop.Event>, cfg: ScanLoop.Settings)
    requires ChainLog(log) && Sound(fills) && AllSteady(ScanLoop.Fresh(), events, cfg)
    ensures OnePass(fills, log, ScanLoop.Run(ScanLoop.Fresh(), events, cfg))
  {
    SteadyRunIsOk(events, cfg);
    ScannerRescans(fills, log, ScanLoop.Run(ScanLoop.Fresh(), events, cfg));
  }

  lemma LoggedWithin(log: seq<Entry>, lo: int, hi: int, from: int, to: int, e: SrcEvent)
    requires Logged(log, lo, hi, e) && from <= lo && hi <= to
    ensures Logged(log, from, to, e)
  {
  }

  /** What the scanner's windows leave an authorized row showing, and that no lock up to lastBlock is missed. */
  ghost predicate ShowsAll(fills: seq<Fill>, log: seq<Entry>, s: ScanLoop.Scanner, i: nat)
    requires i < |fills|
  {
    && |SeeWindows(fills, log, s.windows)| == |fills|
    && var f, g := fills[i], SeeWindows(fills, log, s.windows)[i];
       && Shows(log, s.first, Last(s.first - 1, s.windows), f, g)
       && (Logged(log, s.first + 1, s.lastBlock,
                  Filled(f.orderHash, f.hashlock, f.filler, SrcClone(f.orderHash, f.hashlock)))
           ==> Rank(g.status) >= Rank(SrcLocked))
  }

  lemma ScannerShows(fills: seq<Fill>, log: seq<Entry>, s: ScanLoop.Scanner, i: nat)
    requires ChainLog(log) && Sound(fills) && WindowsOk(s) && i < |fills| && fills[i].status == Authorized
    ensures ShowsAll(fills, log, s, i)
  {
    ScannerRescans(fills, log, s);
    SeeWindowsLength(fills, log, s.windows);
    PassShows(fills, log, s.first, Last(s.first - 1, s.windows), i);
    var f, g := fills[i], SeeWindows(fills, log, s.windows)[i];
    var e := Filled(f.orderHash, f.hashlock, f.filler, SrcClone(f.orderHash, f.hashlock));
    if Logged(log, s.first + 1, s.lastBlock, e) {
      LoggedWithin(log, s.first + 1, s.lastBlock, s.first, Last(s.first - 1, s.windows), e);
      ShownIsLocked(log, s.first, Last(s.first - 1, s.windows), f, g);
    }
  }

  /**
   * So each authorized row shows, after whatever a steady watcher went through, exactly what the log holds for it from
   * the first checkpoint to the last block of any window; a lock logged up to lastBlock is always shown.
   */
  lemma WatcherShows(fills: seq<Fill>, log: seq<Entry>, events: seq<ScanLoop.Event>, cfg: ScanLoop.Settings, i: nat)
    requires ChainLog(log) && Sound(fills) && AllSteady(ScanLoop.Fresh(), events, cfg)
    requires i < |fills| && fills[i].status == Authorized
    ensures ShowsAll(fills, log, ScanLoop.Run(ScanLoop.Fresh(), events, cfg), i)
  {
    SteadyRunIsOk(events, cfg);
    ScannerShows(fills, log, ScanLoop.Run(ScanLoop.Fresh(), events, cfg), i);
  }

  lemma ShownIsLocked(log: seq<Entry>, lo: int, hi: int, f: Fill, g: Fill)
    requires Shows(log, lo, hi, f, g)
    requires Logged(log, lo, hi, Filled(f.orderHash, f.hashlock, f.filler, SrcClone(f.orderHash, f.hashlock)))
    ensures Rank(g.status) >= Rank(SrcLocked)
  {
  }
}
