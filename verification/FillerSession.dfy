/**
 * One cross-chain fill driven by filler processes that may crash between any two effects, be resumed any
 * number of times and overlap (filler/CoWFiller/src/fill/crossChainFill.ts and secretStore.ts).
 */
module FillerSession {
  import opened Arith
  import opened Wrappers
  import opened CrossChainStore
  import CrossChainProtocol
  import CrossChainSafety
  import CrossChainOutcomes

  const T1_BUFFER_SECONDS := 300
  const T2_BUFFER_SECONDS := 120
  const DEFAULT_MIN_MARGIN_SECONDS := 60

  // ---------------------------------------------------------------- the secret store

  /** A JSON file: absent or unreadable, or a map from fill id to secret. */
  class SecretStore {
    var file: Option<map<nat, nat>>

    constructor ()
      ensures file == None
    {
      file := None;
    }

    function Load(): map<nat, nat>
      reads this
    {
      if file.Some? then file.value else map[]
    }

    method SaveSecret(fillId: nat, secret: nat)
      modifies this
      ensures file == Some(old(Load())[fillId := secret])
    {
      var store := Load();
      store := store[fillId := secret];
      file := Some(store);
    }

    method LoadSecret(fillId: nat) returns (secret: Option<nat>)
      ensures secret == if fillId in Load() then Some(Load()[fillId]) else None
    {
      var store := Load();
      if fillId in store {
        return Some(store[fillId]);
      }
      return None;
    }
  }

  // ---------------------------------------------------------------- the quote

  /** The terms crossChainFill proposes; an error when the order's deadline leaves no room. */
  function ProposedQuote(filler: Address, hashlock: Hashlock, remaining: nat, pctHundredths: nat, deadlineBase: int,
                         now: int)
    : Option<Quote>
  {
    var fillAmount := MulDiv(remaining, pctHundredths, 10_000);
    var t1 := Min(deadlineBase, now + T1_BUFFER_SECONDS);
    if remaining == 0 || fillAmount == 0 || t1 <= now then None
    else Some(Quote(filler, hashlock, fillAmount, t1, t1 + T2_BUFFER_SECONDS))
  }

  /**
   * What the filler proposes for a signed order under a fresh hashlock is never refused by the service: its share of
   * what remains rounded down, the earlier of the order's deadline and five minutes, two minutes for the relay. There
   * is nothing to propose exactly when the share rounds to zero or the deadline is not ahead.
   */
  lemma ProposalIsAccepted(orders: map<nat, Order>, fills: seq<Fill>, orderHash: nat, filler: Address,
                           hashlock: Hashlock,
                           remaining: nat, pctHundredths: nat, now: int)
    requires orderHash in orders && orders[orderHash].signed
    requires forall f :: f in fills ==> f.hashlock != hashlock
    ensures var q := ProposedQuote(filler, hashlock, remaining, pctHundredths, orders[orderHash].deadlineBase, now);
            && (q.None? <==> remaining * pctHundredths < 10_000 || orders[orderHash].deadlineBase <= now)
            && (q.Some? ==>
                  && CreateFillQuote(orders, fills, orderHash, q.value).Ok?
                  && q.value.filler == filler && q.value.hashlock == hashlock
                  && 10_000 * q.value.fillAmount <= remaining * pctHundredths < 10_000 * (q.value.fillAmount + 1)
                  && now < q.value.t1 <= orders[orderHash].deadlineBase && q.value.t1 <= now + 300
                  && (q.value.t1 == orders[orderHash].deadlineBase || q.value.t1 == now + 300)
                  && q.value.t2 - q.value.t1 == 120)
  {
    ShareRoundsDown(remaining * pctHundredths);
  }

  lemma ShareRoundsDown(n: nat)
    ensures 10_000 * (n / 10_000) <= n < 10_000 * (n / 10_000 + 1)
  {
  }

  // ---------------------------------------------------------------- sessions

  /** Where a process stands in driveToCompletion. */
  datatype Phase =
    | Saving                    // quoted, secret not yet written
    | Checking                  // about to read the destination escrow's code
    | Transferring
    | Deploying                 // tokens sent, escrow not yet deployed
    | AwaitingFunded            // polls until no longer quoted
    | AwaitingSignature         // polls until no longer quoted or dst_funded
    | Locking(t1: int)          // margin check, then isFilled
    | Slotting(t1: int)
    | Revealing(t1: int)        // margin check, then withdraw
    | Done
    | Stopped(paid: bool)       // crashed or threw; paid: between the transfer and the deployment

  datatype Session = Session(phase: Phase, force: bool, margin: int)

  /** Whose fillSlot made the source escrow; it pays that filler. Anyone can use the row's public signature. */
  datatype Holder = Nobody | Us | Other

  /** What the filler reads of the backend's row. */
  datatype Row = Row(status: Status, t1: int)

  /**
   * A withdraw transaction as it was submitted: the time, the session's deadline and options, whom the escrow pays,
   * and the row at that time.
   */
  datatype Reveal = Reveal(at: int, t1: int, force: bool, margin: int, pays: Holder, row: Row)

  datatype World = World(stored: bool, transfers: nat, deploys: nat, locks: nat, holder: Holder, shown: seq<Reveal>,
                         row: Row, now: int, sessions: seq<Session>)

  datatype Event =
    | Resume(force: bool, minMargin: Option<int>)
    | Advance(i: nat, ok: bool)     // the process's next effect; ok is what the outside answered
    | Crash(i: nat)
    | RowMoves(row: Row)
    | OtherLocks                    // another filler's fillSlot, with the signature the swapper gave for this row
    | Tick(now: int)

  function Margin(minMargin: Option<int>): int {
    if minMargin.Some? then minMargin.value else DEFAULT_MIN_MARGIN_SECONDS
  }

  /** crossChainFill right after the backend accepted the quote. */
  function Started(t1: int, now: int, force: bool, minMargin: Option<int>): World {
    World(false, 0, 0, 0, Nobody, [], Row(Quoted, t1), now, [Session(Saving, force, Margin(minMargin))])
  }

  predicate EnoughTime(w: World, s: Session, t1: int) {
    t1 - w.now >= s.margin || s.force
  }

  /** One arrow of the diagram; the row is locked only behind its own filler's escrow. */
  predicate RowFollows(r: Row, q: Row, holder: Holder) {
    && (q.status == r.status || CrossChainOutcomes.Arrow(r.status, q.status))
    && (q.status == SrcLocked && r.status != SrcLocked ==> holder == Us)
    && (q.t1 == r.t1 || (r.status == DstFunded && q.status == Authorized && q.t1 <= r.t1))
  }

  function StopAt(s: Session): Session {
    s.(phase := if s.phase.Done? || s.phase.Stopped? then s.phase else Stopped(s.phase.Deploying?))
  }

  function Goto(w: World, i: nat, phase: Phase): World
    requires i < |w.sessions|
  {
    w.(sessions := w.sessions[i := w.sessions[i].(phase := phase)])
  }

  /** The next effect of a running session, answered by the outside. */
  function Next(w: World, i: nat, ok: bool): World
    requires i < |w.sessions|
  {
    var s := w.sessions[i];
    if !ok then w.(sessions := w.sessions[i := StopAt(s)])
    else
      match s.phase
      case Saving => Goto(w, i, Checking).(stored := true)
      case Checking => Goto(w, i, if w.deploys > 0 then AwaitingFunded else Transferring)
      case Transferring => Goto(w, i, Deploying).(transfers := w.transfers + 1)
      case Deploying =>
        if w.deploys > 0 then w.(sessions := w.sessions[i := StopAt(s)])
        else Goto(w, i, AwaitingFunded).(deploys := w.deploys + 1)
      case AwaitingFunded => if w.row.status == Quoted then w else Goto(w, i, AwaitingSignature)
      case AwaitingSignature =>
        if w.row.status == Quoted || w.row.status == DstFunded then w else Goto(w, i, Locking(w.row.t1))
      case Locking(t1) =>
        if !EnoughTime(w, s, t1) then w.(sessions := w.sessions[i := StopAt(s)])
        else Goto(w, i, if w.holder != Nobody then Revealing(t1) else Slotting(t1))
      case Slotting(t1) =>
        if w.holder != Nobody then w.(sessions := w.sessions[i := StopAt(s)])
        else Goto(w, i, Revealing(t1)).(locks := w.locks + 1, holder := Us)
      case Revealing(t1) =>
        if !EnoughTime(w, s, t1) then w.(sessions := w.sessions[i := StopAt(s)])
        else Goto(w, i, Done).(shown := w.shown + [Reveal(w.now, t1, s.force, s.margin, w.holder, w.row)])
      case Done => w
      case Stopped(_) => w
  }

  function Apply(w: World, e: Event): World {
    match e
    case Resume(force, minMargin) =>
      if !w.stored || w.row.status == Claimed then w
        else w.(sessions := w.sessions + [Session(Checking, force, Margin(minMargin))])
    case Advance(i, ok) => if i < |w.sessions| then Next(w, i, ok) else w
    case Crash(i) => if i < |w.sessions| then w.(sessions := w.sessions[i := StopAt(w.sessions[i])]) else w
    case RowMoves(row) => if RowFollows(w.row, row, w.holder) then w.(row := row) else w
    case OtherLocks => if w.holder == Nobody && w.row.status != Quoted then w.(holder := Other) else w
    case Tick(now) => if w.now <= now then w.(now := now) else w
  }

  function Run(w: World, events: seq<Event>): World
    decreases |events|
  {
    if events == [] then w else Run(Apply(w, events[0]), events[1..])
  }

  // ---------------------------------------------------------------- the invariant

  /** A session that read the signed row holds the deadline the row will keep. */
  ghost predicate Snapshot(w: World, t1: int) {
    Rank(w.row.status) >= 2 && t1 == w.row.t1
  }

  ghost predicate SessionOk(w: World, s: Session) {
    match s.phase
    case Saving => true
    case Checking | Transferring | Deploying => w.stored
    case AwaitingFunded | AwaitingSignature => w.stored && w.deploys == 1
    case Locking(t1) => w.stored && w.deploys == 1 && Snapshot(w, t1)
    case Slotting(t1) => w.stored && w.deploys == 1 && Snapshot(w, t1)
    case Revealing(t1) => w.stored && w.deploys == 1 && w.holder != Nobody && Snapshot(w, t1)
    case Done => w.stored && w.deploys == 1 && w.holder != Nobody && w.shown != []
    case Stopped(_) => true
  }

  /** The row has been seen locked. */
  predicate ShowsLock(row: Row) {
    Rank(row.status) >= Rank(SrcLocked)
  }

  /**
   * The secret went out with the source locked, the row's own deadline ahead by the margin or by operator's choice,
   * and to this filler's profit if the row showed the lock.
   */
  ghost predicate RevealOk(w: World, r: Reveal) {
    && w.stored && w.deploys == 1 && r.pays == w.holder != Nobody && r.t1 == r.row.t1 && Snapshot(w, r.t1)
    && (r.force || r.t1 - r.at >= r.margin) && (ShowsLock(r.row) ==> r.pays == Us)
  }

  ghost predicate Inv(w: World) {
    && w.deploys <= 1 && w.locks == (if w.holder == Us then 1 else 0)
    && (w.transfers > 0 ==> w.stored)
    && (w.locks == 1 ==> w.deploys == 1)
    && (ShowsLock(w.row) ==> w.holder == Us)
    && (forall i :: 0 <= i < |w.sessions| ==> SessionOk(w, w.sessions[i]))
    && (forall k :: 0 <= k < |w.shown| ==> RevealOk(w, w.shown[k]))
    && w.transfers == w.deploys + Unmatched(w.sessions)
  }

  /** Sessions that sent the tokens and have not deployed, or stopped before they did. */
  function Unmatched(sessions: seq<Session>): nat {
    if sessions == [] then 0
    else Unmatched(sessions[..|sessions| - 1]) + Pays(sessions[|sessions| - 1].phase)
  }

  function Pays(p: Phase): nat {
    if p.Deploying? || p == Stopped(true) then 1 else 0
  }

  lemma {:induction false} UnmatchedUpdate(sessions: seq<Session>, i: nat, s: Session)
    requires i < |sessions|
    ensures Unmatched(sessions[i := s]) == Unmatched(sessions) - Pays(sessions[i].phase) + Pays(s.phase)
    decreases |sessions|
  {
    var last := |sessions| - 1;
    if i == last {
      assert sessions[i := s][..last] == sessions[..last];
    } else {
      assert sessions[i := s][..last] == sessions[..last][i := s];
      UnmatchedUpdate(sessions[..last], i, s);
    }
  }

  lemma UnmatchedAppend(sessions: seq<Session>, s: Session)
    ensures Unmatched(sessions + [s]) == Unmatched(sessions) + Pays(s.phase)
  {
  }

  /** Facts a session relies on never become false. */
  ghost predicate Grows(w: World, v: World) {
    && (w.stored ==> v.stored) && w.deploys <= v.deploys <= 1 && (w.holder != Nobody ==> v.holder == w.holder)
    && (w.shown != [] ==> v.shown != [])
    && (Rank(w.row.status) >= 2 ==> Rank(v.row.status) >= 2 && v.row.t1 == w.row.t1)
  }

  lemma OthersStay(w: World, v: World)
    requires Grows(w, v)
    ensures forall s :: SessionOk(w, s) ==> SessionOk(v, s)
    ensures forall r :: RevealOk(w, r) ==> RevealOk(v, r)
  {
  }

  /** One session moved to s, the rest of the world only grew. */
  lemma SessionMoved(w: World, v: World, i: nat, s: Session)
    requires Inv(w) && i < |w.sessions| && v.sessions == w.sessions[i := s] && Grows(w, v) && SessionOk(v, s)
    requires v.transfers - v.deploys == w.transfers - w.deploys - Pays(w.sessions[i].phase) + Pays(s.phase)
    requires (v.transfers > 0 ==> v.stored) && (v.locks == 1 ==> v.deploys == 1)
    requires v.locks == (if v.holder == Us then 1 else 0) && v.row == w.row
    requires v.shown == w.shown || (exists r :: v.shown == w.shown + [r] && RevealOk(v, r))
    ensures Inv(v)
  {
    OthersStay(w, v);
    UnmatchedUpdate(w.sessions, i, s);
  }

  lemma StopKeepsInv(w: World, i: nat)
    requires Inv(w) && i < |w.sessions|
    ensures Inv(w.(sessions := w.sessions[i := StopAt(w.sessions[i])]))
  {
    assert SessionOk(w, w.sessions[i]);
    SessionMoved(w, w.(sessions := w.sessions[i := StopAt(w.sessions[i])]), i, StopAt(w.sessions[i]));
  }

  lemma NextKeepsInv(w: World, i: nat, ok: bool)
    requires Inv(w) && i < |w.sessions|
    ensures Inv(Next(w, i, ok))
  {
    StopKeepsInv(w, i);
    var v := Next(w, i, ok);
    var moved := v.sessions[i];
    assert SessionOk(w, w.sessions[i]);
    if v != w && v != w.(sessions := w.sessions[i := StopAt(w.sessions[i])]) {
      if w.sessions[i].phase.Revealing? {
        assert RevealOk(v, v.shown[|w.shown|]);
      }
      SessionMoved(w, v, i, moved);
    }
  }

  lemma ResumeKeepsInv(w: World, force: bool, minMargin: Option<int>)
    requires Inv(w)
    ensures Inv(Apply(w, Resume(force, minMargin)))
  {
    var v, added := Apply(w, Resume(force, minMargin)), Session(Checking, force, Margin(minMargin));
    if v != w {
      UnmatchedAppend(w.sessions, added);
      forall i | 0 <= i < |v.sessions|
        ensures SessionOk(v, v.sessions[i])
      {
        assert v.sessions[i] == if i < |w.sessions| then w.sessions[i] else added;
      }
    }
  }

  lemma StepKeepsInv(w: World, e: Event)
    requires Inv(w)
    ensures Inv(Apply(w, e))
  {
    match e {
      case Resume(force, minMargin) =>
        ResumeKeepsInv(w, force, minMargin);
      case Advance(i, ok) =>
        if i < |w.sessions| {
          NextKeepsInv(w, i, ok);
        }
      case Crash(i) =>
        if i < |w.sessions| {
          StopKeepsInv(w, i);
        }
      case RowMoves(row) =>
        OthersStay(w, Apply(w, e));
      case OtherLocks =>
        OthersStay(w, Apply(w, e));
      case Tick(now) =>
        OthersStay(w, Apply(w, e));
    }
  }

  lemma {:induction false} RunKeepsInv(w: World, events: seq<Event>)
    requires Inv(w)
    ensures Inv(Run(w, events))
    decreases |events|
  {
    if events != [] {
      StepKeepsInv(w, events[0]);
      RunKeepsInv(Apply(w, events[0]), events[1..]);
    }
  }

  // ---------------------------------------------------------------- main results

  lemma StartedInv(t1: int, now: int, force: bool, minMargin: Option<int>)
    ensures Inv(Started(t1, now, force, minMargin))
  {
    var start := Started(t1, now, force, minMargin);
    UnmatchedAppend([], start.sessions[0]);
    assert [] + [start.sessions[0]] == start.sessions;
  }

  /**
   * Over every run, with others locking the slot at any time: tokens leave only after the secret is stored; the
   * destination escrow is deployed and the source slot filled by this filler at most once, the slot only behind a
   * deployed escrow; and every withdraw was submitted with the source locked and, unless forced, the margin left
   * before the deadline the row still carries, and pays this filler if the row showed the lock.
   */
  lemma CrashSafety(t1: int, now: int, force: bool, minMargin: Option<int>, events: seq<Event>)
    ensures var w := Run(Started(t1, now, force, minMargin), events);
            && (w.transfers > 0 ==> w.stored)
            && w.deploys <= 1 && w.locks <= w.deploys
            && forall k :: 0 <= k < |w.shown| ==> RevealOk(w, w.shown[k])
  {
    StartedInv(t1, now, force, minMargin);
    RunKeepsInv(Started(t1, now, force, minMargin), events);
  }

  ghost predicate ComesToShow(w: World, events: seq<Event>) {
    ShowsLock(Run(w, events).row)
  }

  lemma {:induction false} OtherStaysHidden(w: World, events: seq<Event>)
    requires Inv(w) && w.holder == Other
    ensures !ShowsLock(Run(w, events).row)
    decreases |events|
  {
    if events != [] {
      StepKeepsInv(w, events[0]);
      OtherStays(w, events[0]);
      OtherStaysHidden(Apply(w, events[0]), events[1..]);
    }
  }

  lemma OtherStays(w: World, e: Event)
    requires w.holder == Other
    ensures Apply(w, e).holder == Other
  {
  }

  /**
   * When a process is about to withdraw from a row that is authorized or further, the withdrawal pays this filler
   * exactly when the row shows the lock or can come to show it. Waiting for that would lose nothing; the source
   * takes any existing escrow for its own instead.
   */
  lemma RevealPaysIff(w: World, i: nat, t1: int)
    requires Inv(w) && i < |w.sessions| && w.sessions[i].phase == Revealing(t1) && EnoughTime(w, w.sessions[i], t1)
    ensures var after := Next(w, i, true);
            && |after.shown| == |w.shown| + 1
            && (after.shown[|w.shown|].pays == Us <==> exists events :: ComesToShow(w, events))
  {
    assert SessionOk(w, w.sessions[i]);
    if w.holder == Us {
      if ShowsLock(w.row) {
        assert ComesToShow(w, []);
      } else {
        var events := [RowMoves(Row(SrcLocked, w.row.t1))];
        RunStep(w, events, w.(row := Row(SrcLocked, w.row.t1)));
        assert ComesToShow(w, events);
      }
    } else if events :| ComesToShow(w, events) {
      OtherStaysHidden(w, events);
    }
  }

  /**
   * Another filler that locks the slot before this one does is paid by this filler's own withdrawal: the process
   * finds the slot filled, skips its own fillSlot and reveals.
   */
  lemma OtherLockIsPaid(w: World, i: nat, t1: int)
    requires Inv(w) && i < |w.sessions| && w.sessions[i].phase == Locking(t1) && EnoughTime(w, w.sessions[i], t1)
    requires w.holder == Nobody
    ensures var after := Run(w, [OtherLocks, Advance(i, true), Advance(i, true)]);
            |after.shown| == |w.shown| + 1 && after.shown[|w.shown|].pays == Other && after.locks == 0
  {
    var events := [OtherLocks, Advance(i, true), Advance(i, true)];
    assert SessionOk(w, w.sessions[i]);
    var w1 := w.(holder := Other);
    var w2 := Goto(w1, i, Revealing(t1));
    RunStep(w, events, w1);
    RunStep(w1, events[1..], w2);
    RunStep(w2, events[2..], Next(w2, i, true));
    assert events[2..][1..] == [];
  }

  // ---------------------------------------------------------------- progress

  /** The process goes on k times, and everything it asks of the outside succeeds. */
  function Advances(i: nat, k: nat): seq<Event> {
    if k == 0 then [] else [Advance(i, true)] + Advances(i, k - 1)
  }

  lemma OneMore(w: World, i: nat, k: nat)
    requires i < |w.sessions|
    ensures Run(w, Advances(i, k + 1)) == Run(Next(w, i, true), Advances(i, k))
  {
    assert Advances(i, k + 1)[1..] == Advances(i, k);
  }

  /** Whom the source escrow pays once this process has seen to it. */
  function Payee(w: World): Holder {
    if w.holder == Other then Other else Us
  }

  /** One withdrawal more, against an escrow that pays this account, behind one deployed destination escrow. */
  ghost predicate Shown(w: World, v: World, force: bool, margin: int, payee: Holder) {
    && v.shown == w.shown + [Reveal(w.now, w.row.t1, force, margin, payee, w.row)]
    && v.stored && v.deploys == 1 && v.locks == (if payee == Us then 1 else 0)
  }

  ghost predicate OnTime(w: World, force: bool, margin: int) {
    force || w.row.t1 - w.now >= margin
  }

  /** A process that has read the authorized row, in a consistent world. */
  ghost predicate Underway(w: World, i: nat, s: Session) {
    && Inv(w) && i < |w.sessions| && w.sessions[i] == s && Rank(w.row.status) >= 2
    && OnTime(w, s.force, s.margin)
  }

  lemma FromRevealing(w: World, i: nat, force: bool, margin: int)
    requires Underway(w, i, Session(Revealing(w.row.t1), force, margin))
    ensures Shown(w, Run(w, Advances(i, 1)), force, margin, Payee(w))
  {
    assert SessionOk(w, w.sessions[i]);
    OneMore(w, i, 0);
  }

  lemma FromSlotting(w: World, i: nat, force: bool, margin: int)
    requires Underway(w, i, Session(Slotting(w.row.t1), force, margin)) && w.holder == Nobody
    ensures Shown(w, Run(w, Advances(i, 2)), force, margin, Us)
  {
    NextKeepsInv(w, i, true);
    OneMore(w, i, 1);
    FromRevealing(Next(w, i, true), i, force, margin);
  }

  lemma FromLocking(w: World, i: nat, force: bool, margin: int) returns (k: nat)
    requires Underway(w, i, Session(Locking(w.row.t1), force, margin))
    ensures Shown(w, Run(w, Advances(i, k)), force, margin, Payee(w))
  {
    NextKeepsInv(w, i, true);
    var v := Next(w, i, true);
    if w.holder == Nobody {
      FromSlotting(v, i, force, margin);
      k := 3;
    } else {
      FromRevealing(v, i, force, margin);
      k := 2;
    }
    OneMore(w, i, k - 1);
  }

  lemma FromAwaitingSignature(w: World, i: nat, force: bool, margin: int) returns (k: nat)
    requires Underway(w, i, Session(AwaitingSignature, force, margin))
    ensures Shown(w, Run(w, Advances(i, k)), force, margin, Payee(w))
  {
    NextKeepsInv(w, i, true);
    k := FromLocking(Next(w, i, true), i, force, margin);
    OneMore(w, i, k);
    k := k + 1;
  }

  lemma FromAwaitingFunded(w: World, i: nat, force: bool, margin: int) returns (k: nat)
    requires Underway(w, i, Session(AwaitingFunded, force, margin))
    ensures Shown(w, Run(w, Advances(i, k)), force, margin, Payee(w))
  {
    NextKeepsInv(w, i, true);
    k := FromAwaitingSignature(Next(w, i, true), i, force, margin);
    OneMore(w, i, k);
    k := k + 1;
  }

  lemma FromTransferring(w: World, i: nat, force: bool, margin: int) returns (k: nat)
    requires Underway(w, i, Session(Transferring, force, margin)) && w.deploys == 0
    ensures Shown(w, Run(w, Advances(i, k)), force, margin, Payee(w))
  {
    var v := Next(w, i, true);
    NextKeepsInv(w, i, true);
    NextKeepsInv(v, i, true);
    k := FromAwaitingFunded(Next(v, i, true), i, force, margin);
    OneMore(v, i, k);
    OneMore(w, i, k + 1);
    k := k + 2;
  }

  lemma FromChecking(w: World, i: nat, force: bool, margin: int) returns (k: nat)
    requires Underway(w, i, Session(Checking, force, margin))
    ensures Shown(w, Run(w, Advances(i, k)), force, margin, Payee(w))
  {
    NextKeepsInv(w, i, true);
    var v := Next(w, i, true);
    if w.deploys > 0 {
      k := FromAwaitingFunded(v, i, force, margin);
    } else {
      k := FromTransferring(v, i, force, margin);
    }
    OneMore(w, i, k);
    k := k + 1;
  }

  /** A process that cannot get to the withdrawal: the row is not authorized, or too little time is left. */
  ghost predicate Fruitless(w: World, i: nat) {
    && i < |w.sessions| && !w.sessions[i].phase.Revealing? && !w.sessions[i].phase.Slotting?
    && (w.sessions[i].phase.Locking? ==> Rank(w.row.status) >= 2 && w.sessions[i].phase.t1 == w.row.t1)
    && (Rank(w.row.status) < 2 || !OnTime(w, w.sessions[i].force, w.sessions[i].margin))
  }

  lemma FruitlessStep(w: World, i: nat)
    requires Fruitless(w, i)
    ensures Fruitless(Next(w, i, true), i) && Next(w, i, true).shown == w.shown
  {
  }

  lemma {:induction false} FruitlessNeverShows(w: World, i: nat, k: nat)
    requires Fruitless(w, i)
    ensures Run(w, Advances(i, k)).shown == w.shown
    decreases k
  {
    if k > 0 {
      OneMore(w, i, k - 1);
      FruitlessStep(w, i);
      FruitlessNeverShows(Next(w, i, true), i, k - 1);
    }
  }

  lemma {:induction false} NobodyThere(w: World, i: nat, k: nat)
    requires i >= |w.sessions|
    ensures Run(w, Advances(i, k)) == w
    decreases k
  {
    if k > 0 {
      assert Advances(i, k)[1..] == Advances(i, k - 1);
      NobodyThere(w, i, k - 1);
    }
  }

  /** A fresh resume that goes on k times withdraws once more, against an escrow that pays this account. */
  ghost predicate ResumeShows(w: World, force: bool, minMargin: Option<int>, k: nat, payee: Holder) {
    Shown(w, Run(Apply(w, Resume(force, minMargin)), Advances(|w.sessions|, k)), force,
          if minMargin.Some? then minMargin.value else 60, payee)
  }

  /**
   * From every reachable world, whatever crashed before: a fresh resume whose transactions go through withdraws,
   * exactly when the secret was stored, the row is signed for and not claimed, and the margin is left or waived. It
   * deploys and locks what is missing, and the withdrawal pays this filler unless another one holds the lock.
   */
  lemma ResumeRevealsIff(w: World, force: bool, minMargin: Option<int>, payee: Holder)
    requires Inv(w)
    ensures (exists k :: ResumeShows(w, force, minMargin, k, payee))
        <==> w.stored && w.row.status !in {Quoted, DstFunded, Claimed}
             && (force || w.row.t1 - w.now >= if minMargin.Some? then minMargin.value else 60)
             && (payee == if w.holder == Other then Other else Us)
  {
    var n, margin := |w.sessions|, if minMargin.Some? then minMargin.value else 60;
    var v := Apply(w, Resume(force, minMargin));
    ResumeKeepsInv(w, force, minMargin);
    if !w.stored || w.row.status == Claimed {
      forall k
        ensures !ResumeShows(w, force, minMargin, k, payee)
      {
        NobodyThere(w, n, k);
      }
    } else if Rank(w.row.status) < 2 || !OnTime(w, force, margin) {
      forall k
        ensures !ResumeShows(w, force, minMargin, k, payee)
      {
        FruitlessNeverShows(v, n, k);
      }
    } else {
      var k := FromChecking(v, n, force, margin);
      assert ResumeShows(w, force, minMargin, k, Payee(w));
      forall j | ResumeShows(w, force, minMargin, j, payee)
        ensures payee == Payee(w)
      {
        OnePayee(v, n, force, margin, j, payee);
      }
    }
  }

  /** However long it goes on, it never withdraws for another account than this. */
  lemma OnePayee(w: World, i: nat, force: bool, margin: int, k: nat, payee: Holder)
    requires Inv(w) && i < |w.sessions| && Shown(w, Run(w, Advances(i, k)), force, margin, payee)
    ensures payee == Payee(w)
  {
    var v := Run(w, Advances(i, k));
    RunKeepsInv(w, Advances(i, k));
    assert RevealOk(v, v.shown[|w.shown|]);
    AdvancesKeepOther(w, i, k);
  }

  lemma NextKeepsOther(w: World, i: nat)
    requires i < |w.sessions|
    ensures i < |Next(w, i, true).sessions| && (Next(w, i, true).holder == Other <==> w.holder == Other)
  {
  }

  lemma {:induction false} AdvancesKeepOther(w: World, i: nat, k: nat)
    requires i < |w.sessions|
    ensures Run(w, Advances(i, k)).holder == Other <==> w.holder == Other
    decreases k
  {
    if k > 0 {
      OneMore(w, i, k - 1);
      NextKeepsOther(w, i);
      AdvancesKeepOther(Next(w, i, true), i, k - 1);
    }
  }

  lemma RunJoins(w: World, a: seq<Event>, b: seq<Event>)
    ensures Run(w, a + b) == Run(Run(w, a), b)
    decreases |a|
  {
    if a == [] {
      assert a + b == b;
    } else {
      assert (a + b)[1..] == a[1..] + b;
      RunJoins(Apply(w, a[0]), a[1..], b);
    }
  }

  /** Secret saved, tokens sent, escrow deployed: the first four effects. */
  lemma StartedFunds(t1: int, now: int, force: bool, minMargin: Option<int>)
    ensures Run(Started(t1, now, force, minMargin), Advances(0, 4))
         == World(true, 1, 1, 0, Nobody, [], Row(Quoted, t1), now,
                  [Session(AwaitingFunded, force, Margin(minMargin))])
  {
    var s := Session(Saving, force, Margin(minMargin));
    var w := Started(t1, now, force, minMargin);
    OneMore(w, 0, 3);
    var w1 := w.(stored := true, sessions := [s.(phase := Checking)]);
    OneMore(w1, 0, 2);
    var w2 := w1.(sessions := [s.(phase := Transferring)]);
    OneMore(w2, 0, 1);
    OneMore(w2.(sessions := [s.(phase := Deploying)], transfers := 1), 0, 0);
  }

  ghost predicate StartShows(w: World, events: seq<Event>, row: Row)
    requires |w.sessions| > 0
  {
    && Run(w, events).shown == [Reveal(w.now, row.t1, w.sessions[0].force, w.sessions[0].margin, Us, row)]
    && Run(w, events).transfers == 1 && Run(w, events).deploys == 1 && Run(w, events).locks == 1
  }

  /** The process's first four effects, the row verified and then signed for at this deadline, and the rest. */
  function Undisturbed(t1: int, signedT1: int, k: nat): seq<Event> {
    Advances(0, 4) + ([RowMoves(Row(DstFunded, t1)), RowMoves(Row(Authorized, signedT1))] + Advances(0, k))
  }

  lemma SignedAtLast(t1: int, now: int, force: bool, minMargin: Option<int>, signedT1: int, k: nat)
    requires signedT1 <= t1
    ensures Run(Started(t1, now, force, minMargin), Undisturbed(t1, signedT1, k))
         == Run(World(true, 1, 1, 0, Nobody, [], Row(Authorized, signedT1), now,
                      [Session(AwaitingFunded, force, Margin(minMargin))]), Advances(0, k))
  {
    var w := Run(Started(t1, now, force, minMargin), Advances(0, 4));
    var moves := [RowMoves(Row(DstFunded, t1)), RowMoves(Row(Authorized, signedT1))] + Advances(0, k);
    StartedFunds(t1, now, force, minMargin);
    RunJoins(Started(t1, now, force, minMargin), Advances(0, 4), moves);
    RunStep(w, moves, w.(row := Row(DstFunded, t1)));
    assert moves[1..] == [RowMoves(Row(Authorized, signedT1))] + Advances(0, k);
    RunStep(w.(row := Row(DstFunded, t1)), moves[1..], w.(row := Row(Authorized, signedT1)));
    assert moves[1..][1..] == Advances(0, k);
  }

  /**
   * Undisturbed, the first process sends the tokens once, deploys once, locks once and then withdraws what it locked,
   * exactly when the deadline the swapper signed leaves the margin or it is waived.
   */
  lemma StartedRevealsIff(t1: int, now: int, force: bool, minMargin: Option<int>, signedT1: int)
    requires signedT1 <= t1
    ensures (exists k :: StartShows(Started(t1, now, force, minMargin), Undisturbed(t1, signedT1, k),
                                    Row(Authorized, signedT1)))
        <==> force || signedT1 - now >= if minMargin.Some? then minMargin.value else 60
  {
    var start := Started(t1, now, force, minMargin);
    var row := Row(Authorized, signedT1);
    var w := World(true, 1, 1, 0, Nobody, [], row, now, [Session(AwaitingFunded, force, Margin(minMargin))]);
    forall k
      ensures Run(start, Undisturbed(t1, signedT1, k)) == Run(w, Advances(0, k))
    {
      SignedAtLast(t1, now, force, minMargin, signedT1, k);
    }
    if OnTime(w, force, Margin(minMargin)) {
      AwaitingInv(row, now, w.sessions[0]);
      var k := FromAwaitingFunded(w, 0, force, Margin(minMargin));
      TransfersStay(w, 0, k);
      assert StartShows(start, Undisturbed(t1, signedT1, k), row);
    } else {
      forall k
        ensures !StartShows(start, Undisturbed(t1, signedT1, k), row)
      {
        FruitlessNeverShows(w, 0, k);
      }
    }
  }

  lemma AwaitingInv(row: Row, now: int, s: Session)
    requires row.status == Authorized && s.phase == AwaitingFunded
    ensures Inv(World(true, 1, 1, 0, Nobody, [], row, now, [s]))
  {
    UnmatchedAppend([], s);
    assert [] + [s] == [s];
  }

  /** Past the deployment nothing is sent again. */
  lemma {:induction false} TransfersStay(w: World, i: nat, k: nat)
    requires i < |w.sessions|
    requires w.sessions[i].phase !in {Saving, Checking, Transferring}
    ensures Run(w, Advances(i, k)).transfers == w.transfers
    decreases k
  {
    if k > 0 {
      OneMore(w, i, k - 1);
      NextSendsNothing(w, i);
      TransfersStay(Next(w, i, true), i, k - 1);
    }
  }

  lemma NextSendsNothing(w: World, i: nat)
    requires i < |w.sessions| && w.sessions[i].phase !in {Saving, Checking, Transferring}
    ensures var v := Next(w, i, true);
            v.transfers == w.transfers && i < |v.sessions| && v.sessions[i].phase !in {Saving, Checking, Transferring}
  {
  }

  /** A process that crashed, or that got an error, has no further effect; the rest of the world is untouched. */
  lemma StoppedIsSilent(w: World, i: nat, e: Event, k: nat)
    requires i < |w.sessions| && (e == Crash(i) || e == Advance(i, false))
    ensures var v := Run(Apply(w, e), Advances(i, k));
            && v == w.(sessions := v.sessions) && |v.sessions| == |w.sessions|
            && forall j :: 0 <= j < |w.sessions| && j != i ==> v.sessions[j] == w.sessions[j]
  {
    Silent(Apply(w, e), i, k);
  }

  lemma {:induction false} Silent(w: World, i: nat, k: nat)
    requires i < |w.sessions| && (w.sessions[i].phase.Done? || w.sessions[i].phase.Stopped?)
    ensures Run(w, Advances(i, k)) == w
    decreases k
  {
    if k > 0 {
      OneMore(w, i, k - 1);
      Silent(w, i, k - 1);
    }
  }

  /** The tokens are sent once per deployment, plus once per process that stopped, or still stands, between the two. */
  lemma TransfersAccountedFor(t1: int, now: int, force: bool, minMargin: Option<int>, events: seq<Event>)
    ensures var w := Run(Started(t1, now, force, minMargin), events);
            w.transfers == w.deploys + Unmatched(w.sessions)
  {
    StartedInv(t1, now, force, minMargin);
    RunKeepsInv(Started(t1, now, force, minMargin), events);
  }

  lemma DeployingHasPaid(w: World, i: nat)
    requires Inv(w) && i < |w.sessions| && w.sessions[i].phase == Deploying
    ensures w.stored && w.transfers >= 1
  {
    assert SessionOk(w, w.sessions[i]);
    UnmatchedUpdate(w.sessions, i, w.sessions[i].(phase := AwaitingFunded));
  }

  /**
   * A crash between the transfer and the deployment makes the resumed process send the tokens again:
   * it looks only for the escrow's code, not for its balance.
   */
  lemma CrashBeforeDeployPaysTwice(w: World, i: nat, force: bool, minMargin: Option<int>)
    requires Inv(w) && i < |w.sessions| && w.sessions[i].phase == Deploying && w.deploys == 0 && w.row.status != Claimed
    ensures var n := |w.sessions|;
            var after :=
              Run(w, [Crash(i), Resume(force, minMargin), Advance(n, true), Advance(n, true), Advance(n, true)]);
            after.transfers == w.transfers + 1 >= 2 && after.deploys == 1
  {
    DeployingHasPaid(w, i);
    ResumePaysAgain(w, i, force, minMargin);
  }

  lemma ResumePaysAgain(w: World, i: nat, force: bool, minMargin: Option<int>)
    requires w.stored && i < |w.sessions| && w.sessions[i].phase == Deploying && w.deploys == 0
             && w.row.status != Claimed
    ensures var n := |w.sessions|;
            var after :=
              Run(w, [Crash(i), Resume(force, minMargin), Advance(n, true), Advance(n, true), Advance(n, true)]);
            after.transfers == w.transfers + 1 && after.deploys == 1
  {
    var n := |w.sessions|;
    var events := [Crash(i), Resume(force, minMargin), Advance(n, true), Advance(n, true), Advance(n, true)];
    var w1 := w.(sessions := w.sessions[i := StopAt(w.sessions[i])]);
    var w2 := w1.(sessions := w1.sessions + [Session(Checking, force, Margin(minMargin))]);
    RunStep(w, events, w1);
    RunStep(w1, events[1..], w2);
    var w3 := Goto(w2, n, Transferring);
    RunStep(w2, events[2..], w3);
    var w4 := Goto(w3, n, Deploying).(transfers := w.transfers + 1);
    RunStep(w3, events[3..], w4);
    RunStep(w4, events[4..], Goto(w4, n, AwaitingFunded).(deploys := 1));
  }

  lemma RunStep(w: World, events: seq<Event>, next: World)
    requires events != [] && Apply(w, events[0]) == next
    ensures Run(w, events) == Run(next, events[1..])
  {
  }

  /** Whose clone the row's source escrow is. */
  function HolderOf(s: CrossChainProtocol.State, i: nat): Holder
    requires i < |s.fills|
  {
    var clone := SrcClone(s.fills[i].orderHash, s.fills[i].hashlock);
    if clone !in s.chains.src then Nobody
    else if s.chains.src[clone].filler == s.fills[i].filler then Us else Other
  }

  /**
   * What the filler polls does move as assumed: the row of the protocol, seen through status and t1; and the slot
   * behind it goes to one filler for good, to another one only once the row is funded.
   */
  lemma ProtocolRowsFollow(s: CrossChainProtocol.State, step: CrossChainProtocol.Step, skew: nat, i: nat)
    requires CrossChainSafety.Inv(s) && i < |s.fills|
    ensures i < |CrossChainProtocol.Apply(s, step, skew).fills|
    ensures var after := CrossChainProtocol.Apply(s, step, skew);
            && RowFollows(Row(s.fills[i].status, s.fills[i].t1), Row(after.fills[i].status, after.fills[i].t1),
                          HolderOf(after, i))
            && (HolderOf(s, i) != Nobody ==> HolderOf(after, i) == HolderOf(s, i))
            && (HolderOf(s, i) == Nobody && HolderOf(after, i) != Nobody ==> s.fills[i].status != Quoted)
  {
    var after := CrossChainProtocol.Apply(s, step, skew);
    CrossChainOutcomes.StepFollowsDiagram(s, step, skew, i);
    CrossChainSafety.StepKeepsInv(s, step, skew);
    assert CrossChainSafety.RowOk(after.orders, after.chains, after.fills[i]);
    HolderStays(s, after, i);
    NewHolderNeedsFunding(s, after, i);
    if HolderOf(s, i) == Nobody && HolderOf(after, i) != Nobody {
      LockLeavesTable(s, step, skew, i);
    }
  }

  lemma HolderStays(s: CrossChainProtocol.State, after: CrossChainProtocol.State, i: nat)
    requires CrossChainSafety.Advances(s, after) && i < |s.fills| && i < |after.fills|
    ensures HolderOf(s, i) != Nobody ==> HolderOf(after, i) == HolderOf(s, i)
  {
    assert CrossChainStore.Evolves(s.fills[i], after.fills[i]);
  }

  /** Only a fillSlot makes a source escrow, and it leaves the table as it is. */
  lemma LockLeavesTable(s: CrossChainProtocol.State, step: CrossChainProtocol.Step, skew: nat, i: nat)
    requires i < |s.fills| && i < |CrossChainProtocol.Apply(s, step, skew).fills|
    requires HolderOf(s, i) == Nobody && HolderOf(CrossChainProtocol.Apply(s, step, skew), i) != Nobody
    ensures CrossChainProtocol.Apply(s, step, skew).fills == s.fills
  {
    CrossChainOutcomes.TableAfterStep(s, step, skew);
    CrossChainOutcomes.KeyStays(s, step, skew, i);
  }

  lemma NewHolderNeedsFunding(s: CrossChainProtocol.State, after: CrossChainProtocol.State, i: nat)
    requires CrossChainSafety.Inv(after) && i < |s.fills| && i < |after.fills|
    ensures HolderOf(after, i) != Nobody ==> after.fills[i].status != Quoted
  {
    if HolderOf(after, i) != Nobody {
      CrossChainOutcomes.SourceIsBacked(after, i);
    }
  }
}
