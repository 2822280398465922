/**
 * The cc_orders / cc_fills tables and their guarded updates
 * (backend/src/services/crosschainService.ts).
 */
module CrossChainStore {
  import opened Wrappers

  // ---------------------------------------------------------------- hashes, addresses, signatures

  /** keccak256 of a secret: injective, so a hashlock stands for its preimage. */
  datatype Hashlock = HashOf(preimage: nat)

  /** Externally owned or foreign contracts, and the two families of CREATE2 clones (salted as the factories do). */
  datatype Address =
    | Account(id: nat)
    | SrcClone(orderHash: nat, hashlock: Hashlock)
    | DstClone(chain: nat, hashlock: Hashlock, filler: Address)

  /** Per-fill authorization, the struct the swapper signs. */
  datatype Auth = Auth(orderHash: nat, hashlock: Hashlock, fillAmount: nat, t1: int, t2: int)

  datatype Signature = Signature(signer: Address, auth: Auth)

  // ---------------------------------------------------------------- the tables

  datatype Order = Order(swapper: Address, outputToken: nat, inputAmount: nat, deadlineBase: int, srcChain: nat,
                         dstChain: nat, signed: bool)

  datatype Status = Quoted | DstFunded | Authorized | SrcLocked | Revealed | Claimed | Slashed

  datatype Fill = Fill(orderHash: nat, filler: Address, fillAmount: nat, hashlock: Hashlock, t1: int, t2: int,
                       status: Status,
                       dstAddr: Option<Address>, srcAddr: Option<Address>, swapperSig: Option<Signature>,
                       secret: Option<nat>, claimTx: Option<nat>)

  function Rank(s: Status): nat {
    match s
    case Quoted => 0
    case DstFunded => 1
    case Authorized => 2
    case SrcLocked => 3
    case Revealed => 4
    case Claimed => 5
    case Slashed => 5
  }

  datatype Reason =
    | OrderNotFound | OrderUnsigned | ClosesTooEarly | BeyondDeadline | DuplicateFill
    | FillNotFound | NotFunded | NotAnInteger | InThePast | Extended | BadSignature

  datatype Result<T> = Ok(value: T) | Err(reason: Reason)

  ghost predicate Unique(fills: seq<Fill>) {
    forall i, j :: 0 <= i < j < |fills| ==> !Matches(fills[i], fills[j].orderHash, fills[j].hashlock)
  }

  predicate Matches(f: Fill, orderHash: nat, hashlock: Hashlock) {
    f.orderHash == orderHash && f.hashlock == hashlock
  }

  // ---------------------------------------------------------------- quotes

  datatype Quote = Quote(filler: Address, hashlock: Hashlock, fillAmount: nat, t1: int, t2: int)

  function NewFill(orderHash: nat, q: Quote): Fill {
    Fill(orderHash, q.filler, q.fillAmount, q.hashlock, q.t1, q.t2, Quoted, None, None, None, None, None)
  }

  function CreateFillQuote(orders: map<nat, Order>, fills: seq<Fill>, orderHash: nat, q: Quote): Result<seq<Fill>> {
    if orderHash !in orders then Err(OrderNotFound)
    else if !orders[orderHash].signed then Err(OrderUnsigned)
    else if q.t2 <= q.t1 then Err(ClosesTooEarly)
    else if q.t1 > orders[orderHash].deadlineBase then Err(BeyondDeadline)
    else if exists f :: f in fills && Matches(f, orderHash, q.hashlock) then Err(DuplicateFill)
    else Ok(fills + [NewFill(orderHash, q)])
  }

  // ---------------------------------------------------------------- the swapper's authorization

  /** The deadline to sign for: the quoted one, or an earlier whole second still in the future. */
  function Shortened(t1: int, newT1: Option<real>, now: int): (r: Result<int>)
    ensures r.Ok? <==> newT1.None? || newT1.value == t1 as real
                       || (newT1.value == newT1.value.Floor as real && now as real < newT1.value <= t1 as real)
    ensures r.Ok? ==> r.value as real == if newT1.Some? then newT1.value else t1 as real
  {
    if newT1.None? || newT1.value == t1 as real then Ok(t1)
    else if newT1.value != newT1.value.Floor as real then Err(NotAnInteger)
    else if newT1.value <= now as real then Err(InThePast)
    else if newT1.value > t1 as real then Err(Extended)
    else Ok(newT1.value.Floor)
  }

  function SetFillSwapperSig(orders: map<nat, Order>, fills: seq<Fill>, fillId: nat, sig: Signature,
                             newT1: Option<real>, now: int)
    : Result<seq<Fill>>
  {
    if fillId >= |fills| || fills[fillId].orderHash !in orders then Err(FillNotFound)
    else
      var f := fills[fillId];
      if f.status != DstFunded then Err(NotFunded)
      else
        match Shortened(f.t1, newT1, now)
        case Err(reason) => Err(reason)
        case Ok(t1) =>
          if sig != Signature(orders[f.orderHash].swapper,
                              Auth(f.orderHash, f.hashlock, f.fillAmount, t1, f.t2)) then Err(BadSignature)
          else Ok(fills[fillId := f.(swapperSig := Some(sig), t1 := t1, status := Authorized)])
  }

  // ---------------------------------------------------------------- watcher-derived transitions

  /** What a watcher or the relayer saw on a chain. */
  datatype Evidence =
    | DstVerified(escrow: Address)
    | SrcFilled(escrow: Address, filler: Address)
    | SecretOut(secret: nat)
    | ClaimSent(tx: nat)
    | SrcCancelled

  /** WHERE clause of each update, beyond the row's key. */
  predicate Accepts(f: Fill, e: Evidence) {
    match e
    case DstVerified(_) => f.status == Quoted
    case SrcFilled(_, filler) => f.status == Authorized && f.filler == filler
    case SecretOut(_) => f.status == SrcLocked
    case ClaimSent(_) => f.status == Revealed
    case SrcCancelled => f.status == Authorized || f.status == SrcLocked
  }

  /** SET clause of each update. */
  function With(f: Fill, e: Evidence): Fill {
    match e
    case DstVerified(escrow) => f.(dstAddr := Some(escrow), status := DstFunded)
    case SrcFilled(escrow, _) => f.(srcAddr := Some(escrow), status := SrcLocked)
    case SecretOut(secret) => f.(secret := Some(secret), status := Revealed)
    case ClaimSent(tx) => f.(claimTx := Some(tx), status := Claimed)
    case SrcCancelled => f.(status := Slashed)
  }

  function Updated(f: Fill, orderHash: nat, hashlock: Hashlock, e: Evidence): Fill {
    if Matches(f, orderHash, hashlock) && Accepts(f, e) then With(f, e) else f
  }

  function Record(fills: seq<Fill>, orderHash: nat, hashlock: Hashlock, e: Evidence): (r: seq<Fill>)
    ensures |r| == |fills| && forall i :: 0 <= i < |fills| ==> r[i] == Updated(fills[i], orderHash, hashlock, e)
  {
    seq(|fills|, i requires 0 <= i < |fills| => Updated(fills[i], orderHash, hashlock, e))
  }

  // ---------------------------------------------------------------- the service over its table

  class FillTable {
    var orders: map<nat, Order>
    var fills: seq<Fill>

    constructor ()
      ensures orders == map[] && fills == []
    {
      orders, fills := map[], [];
    }

    /** The row's position serves as its fill id. */
    method Quote(orderHash: nat, q: Quote) returns (r: Result<nat>)
      modifies this`fills
      ensures var expected := CreateFillQuote(orders, old(fills), orderHash, q);
              match expected
              case Ok(rows) => fills == rows && r == Ok(|old(fills)|)
              case Err(reason) => fills == old(fills) && r == Err(reason)
    {
      if orderHash !in orders {
        return Err(OrderNotFound);
      }
      var o := orders[orderHash];
      if !o.signed {
        return Err(OrderUnsigned);
      }
      if q.t2 <= q.t1 {
        return Err(ClosesTooEarly);
      }
      if q.t1 > o.deadlineBase {
        return Err(BeyondDeadline);
      }
      var taken := Find(orderHash, q.hashlock);
      if taken {
        return Err(DuplicateFill);
      }
      var id := |fills|;
      fills := fills + [NewFill(orderHash, q)];
      return Ok(id);
    }

    method Find(orderHash: nat, hashlock: Hashlock) returns (found: bool)
      ensures found <==> exists f :: f in fills && Matches(f, orderHash, hashlock)
    {
      for i := 0 to |fills|
        invariant forall f :: f in fills[..i] ==> !Matches(f, orderHash, hashlock)
      {
        if Matches(fills[i], orderHash, hashlock) {
          return true;
        }
      }
      assert fills[..|fills|] == fills;
      return false;
    }

    method Authorize(fillId: nat, sig: Signature, newT1: Option<real>, now: int) returns (r: Result<()>)
      modifies this`fills
      ensures match SetFillSwapperSig(orders, old(fills), fillId, sig, newT1, now)
              case Ok(rows) => fills == rows && r == Ok(())
              case Err(reason) => fills == old(fills) && r == Err(reason)
    {
      if fillId >= |fills| || fills[fillId].orderHash !in orders {
        return Err(FillNotFound);
      }
      var f := fills[fillId];
      if f.status != DstFunded {
        return Err(NotFunded);
      }
      var t1 := f.t1;
      if newT1.Some? && newT1.value != t1 as real {
        if newT1.value != newT1.value.Floor as real {
          return Err(NotAnInteger);
        }
        if newT1.value <= now as real {
          return Err(InThePast);
        }
        if newT1.value > t1 as real {
          return Err(Extended);
        }
        t1 := newT1.value.Floor;
      }
      if sig != Signature(orders[f.orderHash].swapper, Auth(f.orderHash, f.hashlock, f.fillAmount, t1, f.t2)) {
        return Err(BadSignature);
      }
      fills := fills[fillId := f.(swapperSig := Some(sig), t1 := t1, status := Authorized)];
      return Ok(());
    }

    /**
     * One guarded UPDATE: every row that matches the key and the guard, and no other, takes the evidence. So of the
     * rows with the key the quoted ones are funded, the authorized ones of that filler are locked, the locked ones are
     * revealed, the revealed ones are claimed, and the authorized and locked ones are slashed.
     */
    method Update(orderHash: nat, hashlock: Hashlock, e: Evidence)
      modifies this`fills
      ensures fills == Record(old(fills), orderHash, hashlock, e)
      ensures |fills| == |old(fills)| && forall i :: 0 <= i < |fills| ==>
                var f := old(fills)[i];
                var known := f.orderHash == orderHash && f.hashlock == hashlock;
                match e
                case DstVerified(escrow) =>
                  fills[i] == if known && f.status == Quoted
                              then f.(status := DstFunded, dstAddr := Some(escrow)) else f
                case SrcFilled(escrow, filler) =>
                  fills[i] == if known && f.status == Authorized && f.filler == filler
                              then f.(status := SrcLocked, srcAddr := Some(escrow)) else f
                case SecretOut(secret) =>
                  fills[i] == if known && f.status == SrcLocked
                              then f.(status := Revealed, secret := Some(secret)) else f
                case ClaimSent(tx) =>
                  fills[i] == if known && f.status == Revealed
                              then f.(status := Claimed, claimTx := Some(tx)) else f
                case SrcCancelled =>
                  fills[i] == if known && f.status in {Authorized, SrcLocked} then f.(status := Slashed) else f
    {
      ghost var before := fills;
      for i := 0 to |fills|
        invariant |fills| == |before|
        invariant forall j :: 0 <= j < i ==> fills[j] == Updated(before[j], orderHash, hashlock, e)
        invariant forall j :: i <= j < |fills| ==> fills[j] == before[j]
      {
        if Matches(fills[i], orderHash, hashlock) && Accepts(fills[i], e) {
          fills := fills[i := With(fills[i], e)];
        }
      }
    }
  }

  // ---------------------------------------------------------------- what every update keeps

  ghost predicate Kept<T>(before: Option<T>, after: Option<T>) {
    before.Some? ==> after == before
  }

  /** How a row may change over its life: only forward, with its terms kept and its deadline at most shortened. */
  ghost predicate Evolves(f: Fill, g: Fill) {
    || g == f
    || (&& Rank(f.status) < Rank(g.status)
        && g.orderHash == f.orderHash && g.filler == f.filler && g.fillAmount == f.fillAmount
        && g.hashlock == f.hashlock
        && g.t2 == f.t2 && g.t1 <= f.t1
        && Kept(f.dstAddr, g.dstAddr) && Kept(f.srcAddr, g.srcAddr) && Kept(f.secret, g.secret)
        && Kept(f.claimTx, g.claimTx))
  }

  ghost predicate TableEvolves(before: seq<Fill>, after: seq<Fill>) {
    |before| <= |after| && forall i :: 0 <= i < |before| ==> Evolves(before[i], after[i])
  }

  /** Which evidence a row carries, by status. */
  ghost predicate EvidenceFitsStatus(f: Fill) {
    && (f.dstAddr.Some? <==> f.status != Quoted)
    && (f.swapperSig.Some? <==> f.status != Quoted && f.status != DstFunded)
    && (f.srcAddr.Some? ==> f.status.SrcLocked? || f.status.Revealed? || f.status.Claimed? || f.status.Slashed?)
    && (f.status.SrcLocked? || f.status.Revealed? || f.status.Claimed? ==> f.srcAddr.Some?)
    && (f.secret.Some? <==> f.status == Revealed || f.status == Claimed)
    && (f.claimTx.Some? <==> f.status == Claimed)
  }

  lemma UpdateEvolves(f: Fill, orderHash: nat, hashlock: Hashlock, e: Evidence)
    requires EvidenceFitsStatus(f)
    ensures EvidenceFitsStatus(Updated(f, orderHash, hashlock, e)) && Evolves(f, Updated(f, orderHash, hashlock, e))
  {
  }

  /** A watcher that sees the same log again changes nothing. */
  lemma RecordIsIdempotent(fills: seq<Fill>, orderHash: nat, hashlock: Hashlock, e: Evidence)
    ensures Record(Record(fills, orderHash, hashlock, e), orderHash, hashlock, e)
            == Record(fills, orderHash, hashlock, e)
  {
  }

  lemma QuoteKeepsUnique(orders: map<nat, Order>, fills: seq<Fill>, orderHash: nat, q: Quote)
    requires Unique(fills) && CreateFillQuote(orders, fills, orderHash, q).Ok?
    ensures Unique(CreateFillQuote(orders, fills, orderHash, q).value)
  {
  }

  lemma RecordKeepsUnique(fills: seq<Fill>, orderHash: nat, hashlock: Hashlock, e: Evidence)
    requires Unique(fills)
    ensures Unique(Record(fills, orderHash, hashlock, e))
  {
  }
}
