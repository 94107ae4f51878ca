/**
 * The USDC escrow program: its decision rules (rules.rs), order states (state.rs) and instructions (lib.rs and
 * instructions/). Accounts are keys, program-derived addresses are the values they are derived from, token accounts are
 * balances by owner, and what the handlers read of the flacon program arrives as arguments.
 */
module Escrow {
  import opened Sums
  import opened Wrappers

  type Key = nat

  const MIN_WINDOW := 3600
  const MAX_WINDOW := 60 * 24 * 60 * 60
  const FILL_TOLERANCE := 5
  const MAX_SCAN_TS_SKEW := 600
  const I64_MIN := -0x8000_0000_0000_0000
  const I64_MAX := 0x7fff_ffff_ffff_ffff

  type i64 = x: int | I64_MIN <= x <= I64_MAX witness 0

  datatype State = Listed | Reserved | PreShipScanned | Shipped | ReceiptScanned | Released | Mismatch | Dispute
      | Cancelled

  datatype Error =
    | AccountInUse | AccountNotFound | InvalidPrice | PassportVoid | NotPassportOwner | InvalidState
    | AssetAlreadyDeposited
    | MissingAssetAccounts | CoreTransferFailed | NotSeller | NotBuyer | SellerCannotBuy | PriceChanged
    | InsufficientFunds
    | ScanSealMismatch | SealPassportMismatch | ScanAttesterMismatch | ScanBeforeOrderStep | SellerScanMismatch
    | ReceiptScanNotNewer | MathOverflow | DisputeWindowNotElapsed | SealNotDead | DeadSealAfterShipping
    | ReceiptMatched
    | Unauthorized | WrongTokenOwner | InvalidDisputeWindow

  // ---------- rules.rs ----------

  /** The allowed window nearest to `w`: an allowed one is kept. */
  function EffectiveWindow(w: i64): (r: i64)
    ensures MIN_WINDOW <= r <= MAX_WINDOW
    ensures forall x :: MIN_WINDOW <= x <= MAX_WINDOW ==> Distance(r, w) <= Distance(x, w)
  {
    if w < MIN_WINDOW then MIN_WINDOW else if w > MAX_WINDOW then MAX_WINDOW else w
  }

  function Distance(a: int, b: int): nat { if a < b then b - a else a - b }

  function Elapsed(start: i64, window: i64, now: i64): Result<bool, Error> {
    var deadline := start + EffectiveWindow(window);
    if deadline > I64_MAX then Err(MathOverflow) else Ok(now > deadline)
  }

  predicate AdminMayRefund(s: State) { s == Reserved || s == PreShipScanned || s == Shipped }

  datatype Reason = ByAdmin | Timeout | SealDead

  function BuyerDisputeReason(s: State, sealDead: Option<bool>, reservedAt: i64, window: i64, now: i64): Result<Reason,
      Error>
  {
    if s == ReceiptScanned then Err(ReceiptMatched) else
      match sealDead
      case Some(dead) =>
        if !dead then Err(SealNotDead)
        else if s == Shipped then Err(DeadSealAfterShipping)
        else if s != Reserved && s != PreShipScanned then Err(InvalidState)
        else Ok(SealDead)
      case None =>
        if s != Reserved && s != PreShipScanned then Err(InvalidState) else
          match Elapsed(reservedAt, window, now)
          case Err(e) => Err(e)
          case Ok(over) => if over then Ok(Timeout) else Err(DisputeWindowNotElapsed)
  }

  function CheckReleaseAfterTimeout(s: State, shippedAt: i64, window: i64, now: i64): Result<(), Error> {
    if s != Shipped then Err(InvalidState) else
      match Elapsed(shippedAt, window, now)
      case Err(e) => Err(e)
      case Ok(over) => if over then Ok(()) else Err(DisputeWindowNotElapsed)
  }

  /** `scan_ts >= step_at.saturating_sub(MAX_SCAN_TS_SKEW_S)` */
  predicate NotBefore(scanTs: i64, stepAt: i64) {
    scanTs >= if stepAt - MAX_SCAN_TS_SKEW < I64_MIN then I64_MIN else stepAt - MAX_SCAN_TS_SKEW
  }

  // ---------- accounts ----------

  /** Seeds of an order account. */
  datatype Id = Id(passport: Key, seller: Key)

  datatype Order = Order(buyer: Option<Key>, asset: Key, price: nat, state: State, reservedAt: i64, shippedAt: i64,
                         sellerScan: Option<Key>, buyerScan: Option<Key>, window: i64, deposited: bool)

  predicate IsFunded(o: Order) {
    o.state in {Reserved, PreShipScanned, Shipped, ReceiptScanned, Mismatch}
  }

  predicate IsTerminal(o: Order) { o.state in {Released, Dispute, Cancelled} }

  /** Who holds a Core asset: a wallet, or an order in whose custody it is. */
  datatype Holder = Wallet(key: Key) | Custody(id: Id)

  datatype World = World(admin: Key, window: i64, orders: map<Id, Order>, vaults: map<Id, nat>, wallets: map<Key, nat>,
                         assets: map<Key, Holder>)

  /**
   * What a handler reads of a passport: void flag or VOID grade, issuer, and whether the issuer is an active partner.
   */
  datatype PassportView = PassportView(isVoid: bool, asset: Key, issuer: Key, issuerActive: bool)

  datatype ScanProof = ScanProof(key: Key, seal: Key, counter: nat, ts: i64, heat: nat, hum: nat, fill: nat,
      attester: Key)

  datatype SealView = SealView(key: Key, passport: Key, dead: bool)

  function Balance(wallets: map<Key, nat>, k: Key): nat { if k in wallets then wallets[k] else 0 }

  function SellerAllowed(w: World, seller: Key, asset: Key, p: PassportView): bool {
    if asset in w.assets then w.assets[asset] == Wallet(seller) else p.issuer == seller && p.issuerActive
  }

  function Outcome(w: World, id: Id, o: Order): World { w.(orders := w.orders[id := o]) }

  // ---------- instructions ----------

  datatype Instruction =
    | SetDisputeWindow(signer: Key, seconds: i64)
    | List(id: Id, price: nat, passport: PassportView)
    | DepositAsset(id: Id, signer: Key)
    | Cancel(id: Id, signer: Key, withAsset: bool)
    | CloseOrder(id: Id, signer: Key)
    | Reserve(id: Id, signer: Key, expectedPrice: nat, passport: PassportView)
    | RecordPreShipScan(id: Id, signer: Key, scan: ScanProof, seal: SealView)
    | Ship(id: Id, signer: Key)
    | RecordReceiptScan(id: Id, signer: Key, scan: ScanProof, seal: SealView, sellerScan: ScanProof)
    | Release(id: Id, withAsset: bool)
    | ReleaseAfterTimeout(id: Id, withAsset: bool)
    | Refund(id: Id, signer: Key, sealView: Option<SealView>, withAsset: bool)
    | Resolve(id: Id, signer: Key, toSeller: bool, recipient: Key, withAsset: bool)
    | Donate(id: Id, signer: Key, amount: nat)
    | Pay(signer: Key, to: Key, amount: nat)
    | GiveAsset(signer: Key, asset: Key, to: Key)

  type Next = Result<World, Error>

  function ListStep(w: World, id: Id, price: nat, p: PassportView): Next {
    if id in w.orders then Err(AccountInUse)
    else if price == 0 then Err(InvalidPrice)
    else if p.isVoid then Err(PassportVoid)
    else if !SellerAllowed(w, id.seller, p.asset, p) then Err(NotPassportOwner)
    else Ok(Outcome(w, id, Order(None, p.asset, price, Listed, 0, 0, None, None, EffectiveWindow(w.window), false)))
  }

  function DepositStep(w: World, id: Id, signer: Key): Next {
    if id !in w.orders then Err(AccountNotFound)
    else if signer != id.seller then Err(NotSeller)
    else
      var o := w.orders[id];
      if o.state != Listed then Err(InvalidState)
      else if o.deposited then Err(AssetAlreadyDeposited)
      else if o.asset !in w.assets || w.assets[o.asset] != Wallet(signer) then Err(CoreTransferFailed)
      else Ok(Outcome(w.(assets := w.assets[o.asset := Custody(id)]), id, o.(deposited := true)))
  }

  /** return_asset: a deposited asset leaves custody for `to`. */
  function ReturnAsset(w: World, id: Id, withAsset: bool, to: Key): Next
    requires id in w.orders
  {
    var o := w.orders[id];
    if !o.deposited then Ok(w)
    else if !withAsset then Err(MissingAssetAccounts)
    else if o.asset !in w.assets || w.assets[o.asset] != Custody(id) then Err(CoreTransferFailed)
    else Ok(w.(assets := w.assets[o.asset := Wallet(to)]))
  }

  function CancelStep(w: World, id: Id, signer: Key, withAsset: bool): Next {
    if id !in w.orders then Err(AccountNotFound)
    else if signer != id.seller then Err(NotSeller)
    else if w.orders[id].state != Listed then Err(InvalidState)
    else
      match ReturnAsset(w, id, withAsset, id.seller)
      case Err(e) => Err(e)
      case Ok(w1) => Ok(Outcome(w1, id, w.orders[id].(state := Cancelled, deposited := false)))
  }

  function CloseStep(w: World, id: Id, signer: Key): Next {
    if id !in w.orders then Err(AccountNotFound)
    else if signer != id.seller then Err(NotSeller)
    else if !IsTerminal(w.orders[id]) then Err(InvalidState)
    else Ok(w.(orders := w.orders - {id}))
  }

  function ReserveStep(w: World, id: Id, signer: Key, expectedPrice: nat, p: PassportView, now: i64): Next {
    if id !in w.orders then Err(AccountNotFound) else
      var o := w.orders[id];
      if o.state != Listed then Err(InvalidState)
      else if signer == id.seller then Err(SellerCannotBuy)
      else if o.price != expectedPrice then Err(PriceChanged)
      else if p.isVoid then Err(PassportVoid)
      else if !o.deposited && !SellerAllowed(w, id.seller, o.asset, p) then Err(NotPassportOwner)
      else if Balance(w.wallets, signer) < o.price then Err(InsufficientFunds)
      else
        var vault := if id in w.vaults then w.vaults[id] else 0;
        Ok(Outcome(w.(wallets := w.wallets[signer := Balance(w.wallets, signer) - o.price],
            vaults := w.vaults[id := vault + o.price]),
                   id, o.(buyer := Some(signer), reservedAt := now, state := Reserved)))
  }

  /** check_scan; None when the scan stands for the step. */
  function ScanError(id: Id, scan: ScanProof, seal: SealView, attester: Key, notBefore: i64): Option<Error> {
    if scan.seal != seal.key then Some(ScanSealMismatch)
    else if seal.passport != id.passport then Some(SealPassportMismatch)
    else if scan.attester != attester then Some(ScanAttesterMismatch)
    else if !NotBefore(scan.ts, notBefore) then Some(ScanBeforeOrderStep)
    else None
  }

  function PreShipStep(w: World, id: Id, signer: Key, scan: ScanProof, seal: SealView): Next {
    if id !in w.orders then Err(AccountNotFound)
    else if signer != id.seller then Err(NotSeller)
    else
      var o := w.orders[id];
      if o.state != Reserved then Err(InvalidState)
      else if ScanError(id, scan, seal, id.seller, o.reservedAt).Some?
      then Err(ScanError(id, scan, seal, id.seller, o.reservedAt).value)
      else Ok(Outcome(w, id, o.(sellerScan := Some(scan.key), state := PreShipScanned)))
  }

  function ShipStep(w: World, id: Id, signer: Key, now: i64): Next {
    if id !in w.orders then Err(AccountNotFound)
    else if signer != id.seller then Err(NotSeller)
    else if w.orders[id].state != PreShipScanned then Err(InvalidState)
    else Ok(Outcome(w, id, w.orders[id].(shippedAt := now, state := Shipped)))
  }

  predicate Matches(a: ScanProof, b: ScanProof) {
    a.heat == b.heat && a.hum == b.hum && Distance(a.fill, b.fill) <= FILL_TOLERANCE
  }

  function ReceiptStep(w: World, id: Id, signer: Key, scan: ScanProof, seal: SealView, sellerScan: ScanProof): Next {
    if id !in w.orders then Err(AccountNotFound) else
      var o := w.orders[id];
      if o.buyer != Some(signer) then Err(NotBuyer)
      else if o.sellerScan != Some(sellerScan.key) then Err(SellerScanMismatch)
      else if o.state != Shipped then Err(InvalidState)
      else if ScanError(id, scan, seal, signer, o.shippedAt).Some?
          then Err(ScanError(id, scan, seal, signer, o.shippedAt).value)
      else if scan.seal == sellerScan.seal && scan.counter <= sellerScan.counter then Err(ReceiptScanNotNewer)
      else Ok(Outcome(w, id,
          o.(buyerScan := Some(scan.key), state := if Matches(scan, sellerScan) then ReceiptScanned else Mismatch)))
  }

  /** drain_vault: the whole balance goes to `to` and the vault is closed. */
  function Drained(w: World, id: Id, to: Key): World
    requires id in w.vaults
  {
    w.(wallets := w.wallets[to := Balance(w.wallets, to) + w.vaults[id]], vaults := w.vaults - {id})
  }

  /** Ends a funded order: the vault to the seller and the asset to the buyer, or the other way round. */
  function Settle(w: World, id: Id, toSeller: bool, withAsset: bool): Next
    requires id in w.orders
  {
    var o := w.orders[id];
    if id !in w.vaults || o.buyer == None then Err(AccountNotFound) else
      var drained := Drained(w, id, if toSeller then id.seller else o.buyer.value);
      match ReturnAsset(drained, id, withAsset, if toSeller then o.buyer.value else id.seller)
      case Err(e) => Err(e)
      case Ok(w1) => Ok(Outcome(w1, id, o.(state := if toSeller then Released else Dispute, deposited := false)))
  }

  function ReleaseStep(w: World, id: Id, withAsset: bool): Next {
    if id !in w.orders then Err(AccountNotFound)
    else if w.orders[id].state != ReceiptScanned then Err(InvalidState)
    else Settle(w, id, true, withAsset)
  }

  function TimeoutStep(w: World, id: Id, withAsset: bool, now: i64): Next {
    if id !in w.orders then Err(AccountNotFound) else
      var o := w.orders[id];
      match CheckReleaseAfterTimeout(o.state, o.shippedAt, o.window, now)
      case Err(e) => Err(e)
      case Ok(_) => Settle(w, id, true, withAsset)
  }

  /** Who may refund, and why. */
  function RefundReason(w: World, id: Id, signer: Key, sealView: Option<SealView>, now: i64): Result<Reason, Error>
    requires id in w.orders
  {
    var o := w.orders[id];
    if signer == w.admin then if AdminMayRefund(o.state) then Ok(ByAdmin) else Err(InvalidState)
    else if o.buyer != Some(signer) then Err(Unauthorized)
    else if sealView.Some? && sealView.value.passport != id.passport then Err(SealPassportMismatch)
    else
      BuyerDisputeReason(o.state, match sealView { case Some(s) => Some(s.dead) case None => None }, o.reservedAt,
          o.window, now)
  }

  function RefundStep(w: World, id: Id, signer: Key, sealView: Option<SealView>, withAsset: bool, now: i64): Next {
    if id !in w.orders then Err(AccountNotFound) else
      match RefundReason(w, id, signer, sealView, now)
      case Err(e) => Err(e)
      case Ok(_) => Settle(w, id, false, withAsset)
  }

  function ResolveStep(w: World, id: Id, signer: Key, toSeller: bool, recipient: Key, withAsset: bool): Next {
    if id !in w.orders then Err(AccountNotFound)
    else if signer != w.admin then Err(Unauthorized)
    else
      var o := w.orders[id];
      if o.state != Mismatch then Err(InvalidState)
      else if Some(recipient) != (if toSeller then Some(id.seller) else o.buyer) then Err(WrongTokenOwner)
      else Settle(w, id, toSeller, withAsset)
  }

  /** Anyone may send tokens to an open vault. */
  function DonateStep(w: World, id: Id, signer: Key, amount: nat): Next {
    if id !in w.vaults then Err(AccountNotFound)
    else if Balance(w.wallets, signer) < amount then Err(InsufficientFunds)
    else Ok(w.(wallets := w.wallets[signer := Balance(w.wallets, signer) - amount],
        vaults := w.vaults[id := w.vaults[id] + amount]))
  }

  function PayStep(w: World, signer: Key, to: Key, amount: nat): Next {
    if Balance(w.wallets, signer) < amount then Err(InsufficientFunds) else
      var less := w.wallets[signer := Balance(w.wallets, signer) - amount];
      Ok(w.(wallets := less[to := Balance(less, to) + amount]))
  }

  /** The owner of a Core asset may give it away outside the escrow. */
  function GiveStep(w: World, signer: Key, asset: Key, to: Key): Next {
    if asset !in w.assets || w.assets[asset] != Wallet(signer) then Err(CoreTransferFailed)
    else Ok(w.(assets := w.assets[asset := Wallet(to)]))
  }

  function Apply(w: World, i: Instruction, now: i64): Next {
    match i
    case SetDisputeWindow(signer, s) =>
      if signer != w.admin then Err(Unauthorized)
      else if !(MIN_WINDOW <= s <= MAX_WINDOW) then Err(InvalidDisputeWindow)
      else Ok(w.(window := s))
    case List(id, price, p) => ListStep(w, id, price, p)
    case DepositAsset(id, signer) => DepositStep(w, id, signer)
    case Cancel(id, signer, withAsset) => CancelStep(w, id, signer, withAsset)
    case CloseOrder(id, signer) => CloseStep(w, id, signer)
    case Reserve(id, signer, price, p) => ReserveStep(w, id, signer, price, p, now)
    case RecordPreShipScan(id, signer, scan, seal) => PreShipStep(w, id, signer, scan, seal)
    case Ship(id, signer) => ShipStep(w, id, signer, now)
    case RecordReceiptScan(id, signer, scan, seal, sellerScan) => ReceiptStep(w, id, signer, scan, seal, sellerScan)
    case Release(id, withAsset) => ReleaseStep(w, id, withAsset)
    case ReleaseAfterTimeout(id, withAsset) => TimeoutStep(w, id, withAsset, now)
    case Refund(id, signer, sealView, withAsset) => RefundStep(w, id, signer, sealView, withAsset, now)
    case Resolve(id, signer, toSeller, recipient, withAsset) =>
        ResolveStep(w, id, signer, toSeller, recipient, withAsset)
    case Donate(id, signer, amount) => DonateStep(w, id, signer, amount)
    case Pay(signer, to, amount) => PayStep(w, signer, to, amount)
    case GiveAsset(signer, asset, to) => GiveStep(w, signer, asset, to)
  }

  /** A failed instruction changes nothing. */
  function Step(w: World, i: Instruction, now: i64): World {
    match Apply(w, i, now) case Ok(next) => next case Err(_) => w
  }

  // ---------- conservation ----------

  /** All USDC: in wallets and in vaults. */
  ghost function Supply(w: World): nat { Sum(w.wallets) + Sum(w.vaults) }

  lemma SettleBalances(w: World, id: Id, toSeller: bool, withAsset: bool)
    requires id in w.orders && Settle(w, id, toSeller, withAsset).Ok?
    ensures var next, to := Settle(w, id, toSeller, withAsset).value, if toSeller then id.seller
        else w.orders[id].buyer.value;
      && next.wallets == w.wallets[to := Balance(w.wallets, to) + w.vaults[id]] && next.vaults == w.vaults - {id}
  {}

  lemma SettleConserves(w: World, id: Id, toSeller: bool, withAsset: bool)
    requires id in w.orders && Settle(w, id, toSeller, withAsset).Ok?
    ensures Supply(Settle(w, id, toSeller, withAsset).value) == Supply(w)
  {
    SettleBalances(w, id, toSeller, withAsset);
    var to: Key := if toSeller then id.seller else w.orders[id].buyer.value;
    SumPut(w.wallets, to, Balance(w.wallets, to) + w.vaults[id]);
    SumTake(w.vaults, id);
  }

  lemma ReserveConserves(w: World, id: Id, signer: Key, price: nat, p: PassportView, now: i64)
    requires ReserveStep(w, id, signer, price, p, now).Ok?
    ensures Supply(ReserveStep(w, id, signer, price, p, now).value) == Supply(w)
  {
    hide Sum;
    var o := w.orders[id];
    SumPut(w.wallets, signer, Balance(w.wallets, signer) - o.price);
    SumPut(w.vaults, id, (if id in w.vaults then w.vaults[id] else 0) + o.price);
  }

  lemma MovesConserve(w: World, i: Instruction, now: i64)
    requires i.Donate? || i.Pay?
    ensures Supply(Step(w, i, now)) == Supply(w)
  {
    hide Sum;
    if Apply(w, i, now).Ok? {
      var less := w.wallets[i.signer := Balance(w.wallets, i.signer) - i.amount];
      SumPut(w.wallets, i.signer, Balance(w.wallets, i.signer) - i.amount);
      if i.Donate? { SumPut(w.vaults, i.id, w.vaults[i.id] + i.amount); }
      else { SumPut(less, i.to, Balance(less, i.to) + i.amount); }
    }
  }

  /** No instruction creates or destroys USDC. */
  lemma StepConserves(w: World, i: Instruction, now: i64)
    ensures Supply(Step(w, i, now)) == Supply(w)
  {
    hide Sum, Settle, RefundReason, CheckReleaseAfterTimeout, ScanError;
    var next := Apply(w, i, now);
    if next.Ok? {
      match i {
        case Reserve(id, signer, price, p) => ReserveConserves(w, id, signer, price, p, now);
        case Release(id, withAsset) => SettleConserves(w, id, true, withAsset);
        case ReleaseAfterTimeout(id, withAsset) => SettleConserves(w, id, true, withAsset);
        case Refund(id, _, _, withAsset) => SettleConserves(w, id, false, withAsset);
        case Resolve(id, _, toSeller, _, withAsset) => SettleConserves(w, id, toSeller, withAsset);
        case Donate(_, _, _) => MovesConserve(w, i, now);
        case Pay(_, _, _) => MovesConserve(w, i, now);
        case _ =>
      }
    }
  }

  // ---------- books: listings, gifts and payments ----------

  datatype Payment = Payment(toSeller: bool, amount: nat)

  /** The world with a number for every listing, what strangers gave to each open vault, and what each listing paid. */
  datatype Books = Books(world: World, listing: map<Id, nat>, count: nat, gifts: map<Id, nat>, paid: map<nat, Payment>)

  /** The order that an instruction settles, and for whom. */
  function Settles(i: Instruction): Option<(Id, bool)> {
    match i
    case Release(id, _) => Some((id, true))
    case ReleaseAfterTimeout(id, _) => Some((id, true))
    case Refund(id, _, _, _) => Some((id, false))
    case Resolve(id, _, toSeller, _, _) => Some((id, toSeller))
    case _ => None
  }

  function Kept(b: Books, i: Instruction, now: i64): Books {
    match Apply(b.world, i, now)
    case Err(_) => b
    case Ok(w) =>
      var b1 := b.(world := w);
      if i.List? then b1.(listing := b.listing[i.id := b.count], count := b.count + 1)
      else if i.Reserve? then b1.(gifts := b.gifts[i.id := 0])
      else if i.Donate? && i.id in b.gifts then b1.(gifts := b.gifts[i.id := b.gifts[i.id] + i.amount])
      else if Settles(i).Some? && Settles(i).value.0 in b.world.vaults && Settles(i).value.0 in b.listing then
        var (id, toSeller) := Settles(i).value;
        b1.(paid := b.paid[b.listing[id] := Payment(toSeller, b.world.vaults[id])])
      else b1
  }

  /** A vault is open exactly while its order is funded; it then holds the price and what strangers gave. */
  predicate VaultAt(b: Books, id: Id) {
    && (id in b.world.vaults <==> id in b.world.orders && IsFunded(b.world.orders[id]))
    && (id in b.world.vaults ==>
          var o := b.world.orders[id];
          && id in b.gifts && b.world.vaults[id] == o.price + b.gifts[id]
          && o.buyer.Some? && o.buyer.value != id.seller)
  }

  /** A deposited asset is in the custody of its order. */
  predicate CustodyAt(b: Books, id: Id) {
    id in b.world.orders && b.world.orders[id].deposited ==>
      b.world.orders[id].asset in b.world.assets && b.world.assets[b.world.orders[id].asset] == Custody(id)
  }

  /** An asset in custody belongs to an open order that has it on record. */
  predicate AssetAt(b: Books, a: Key) {
    a in b.world.assets && b.world.assets[a].Custody? ==>
      var id := b.world.assets[a].id;
      id in b.world.orders && b.world.orders[id].deposited && b.world.orders[id].asset == a
          && !IsTerminal(b.world.orders[id])
  }

  /** A listing has paid the seller exactly when it is released, and the buyer exactly when it is refunded. */
  predicate PaidAt(b: Books, id: Id) {
    id in b.world.orders ==>
      && id in b.listing
      && (b.listing[id] in b.paid <==> b.world.orders[id].state in {Released, Dispute})
      && (b.listing[id] in b.paid ==> (b.paid[b.listing[id]].toSeller <==> b.world.orders[id].state == Released))
  }

  predicate SoundAt(b: Books, id: Id, a: Key) { VaultAt(b, id) && CustodyAt(b, id) && AssetAt(b, a) && PaidAt(b, id) }

  /** Every listing has its own number. */
  predicate NumbersOk(b: Books) {
    && (forall id :: id in b.listing ==> b.listing[id] < b.count)
    && (forall i, j :: i in b.listing && j in b.listing && b.listing[i] == b.listing[j] ==> i == j)
    && (forall n :: n in b.paid ==> n < b.count)
  }

  ghost predicate Sound(b: Books) { NumbersOk(b) && forall id, a :: SoundAt(b, id, a) }

  /** The states an order passes through, as drawn in lib.rs; None is an account that does not exist. */
  predicate Edge(a: Option<State>, b: Option<State>) {
    || a == b
    || (a == None && b == Some(Listed))
    || (a == Some(Listed) && b in {Some(Reserved), Some(Cancelled)})
    || (a == Some(Reserved) && b in {Some(PreShipScanned), Some(Dispute)})
    || (a == Some(PreShipScanned) && b in {Some(Shipped), Some(Dispute)})
    || (a == Some(Shipped) && b in {Some(ReceiptScanned), Some(Mismatch), Some(Released), Some(Dispute)})
    || (a == Some(ReceiptScanned) && b == Some(Released))
    || (a == Some(Mismatch) && b in {Some(Released), Some(Dispute)})
    || (a in {Some(Released), Some(Dispute), Some(Cancelled)} && b == None)
  }

  function StateOf(w: World, id: Id): Option<State> { if id in w.orders then Some(w.orders[id].state) else None }

  /** `next` keeps the books sound at order `id` and asset `a`, and the order on the diagram. */
  predicate Good(b: Books, next: Books, id: Id, a: Key) {
    Edge(StateOf(b.world, id), StateOf(next.world, id)) && SoundAt(next, id, a) && NumbersOk(next)
  }

  lemma ListAt(b: Books, own: Id, price: nat, p: PassportView, id: Id, a: Key)
    requires NumbersOk(b) && SoundAt(b, id, a) && SoundAt(b, own, a) && ListStep(b.world, own, price, p).Ok?
    ensures Good(b, b.(world := ListStep(b.world, own, price, p).value, listing := b.listing[own := b.count],
        count := b.count + 1), id, a)
  {
    hide SellerAllowed, EffectiveWindow;
  }

  lemma DepositAt(b: Books, own: Id, signer: Key, id: Id, a: Key)
    requires NumbersOk(b) && SoundAt(b, id, a) && SoundAt(b, own, a) && DepositStep(b.world, own, signer).Ok?
    ensures Good(b, b.(world := DepositStep(b.world, own, signer).value), id, a)
  {}

  lemma CancelAt(b: Books, own: Id, signer: Key, withAsset: bool, id: Id, a: Key)
    requires NumbersOk(b) && SoundAt(b, id, a) && SoundAt(b, own, a) && CancelStep(b.world, own, signer, withAsset).Ok?
    ensures Good(b, b.(world := CancelStep(b.world, own, signer, withAsset).value), id, a)
  {}

  lemma CloseAt(b: Books, own: Id, signer: Key, id: Id, a: Key)
    requires NumbersOk(b) && SoundAt(b, id, a) && SoundAt(b, own, a) && CloseStep(b.world, own, signer).Ok?
    ensures Good(b, b.(world := CloseStep(b.world, own, signer).value), id, a)
  {}

  lemma ReserveAt(b: Books, own: Id, signer: Key, price: nat, p: PassportView, now: i64, id: Id, a: Key)
    requires NumbersOk(b) && SoundAt(b, id, a) && SoundAt(b, own, a)
        && ReserveStep(b.world, own, signer, price, p, now).Ok?
    ensures Good(b, b.(world := ReserveStep(b.world, own, signer, price, p, now).value, gifts := b.gifts[own := 0]), id,
        a)
  {
    hide SellerAllowed;
  }

  lemma DonateAt(b: Books, own: Id, signer: Key, amount: nat, id: Id, a: Key)
    requires NumbersOk(b) && SoundAt(b, id, a) && SoundAt(b, own, a) && DonateStep(b.world, own, signer, amount).Ok?
    ensures own in b.gifts
    ensures Good(b, b.(world := DonateStep(b.world, own, signer, amount).value,
        gifts := b.gifts[own := b.gifts[own] + amount]), id, a)
  {}

  /** The two scans and `ship` only move a funded order on. */
  lemma MoveAt(b: Books, own: Id, o: Order, id: Id, a: Key)
    requires NumbersOk(b) && SoundAt(b, id, a) && own in b.world.orders
    requires var was := b.world.orders[own];
      && IsFunded(was) && IsFunded(o) && Edge(Some(was.state), Some(o.state))
      && o.buyer == was.buyer && o.asset == was.asset && o.price == was.price && o.deposited == was.deposited
    ensures Good(b, b.(world := Outcome(b.world, own, o)), id, a)
  {}

  lemma PayAt(b: Books, signer: Key, to: Key, amount: nat, id: Id, a: Key)
    requires NumbersOk(b) && SoundAt(b, id, a) && PayStep(b.world, signer, to, amount).Ok?
    ensures Good(b, b.(world := PayStep(b.world, signer, to, amount).value), id, a)
  {}

  lemma GiveAt(b: Books, signer: Key, asset: Key, to: Key, id: Id, a: Key)
    requires NumbersOk(b) && SoundAt(b, id, a) && GiveStep(b.world, signer, asset, to).Ok?
    ensures Good(b, b.(world := GiveStep(b.world, signer, asset, to).value), id, a)
  {}

  lemma SettleMoney(b: Books, own: Id, toSeller: bool, withAsset: bool, id: Id)
    requires NumbersOk(b) && VaultAt(b, id) && PaidAt(b, id) && VaultAt(b, own) && PaidAt(b, own)
        && own in b.world.orders
    requires toSeller ==> b.world.orders[own].state in {Shipped, ReceiptScanned, Mismatch}
    requires !toSeller ==> b.world.orders[own].state in {Reserved, PreShipScanned, Shipped, Mismatch}
    requires Settle(b.world, own, toSeller, withAsset).Ok?
    ensures own in b.world.vaults && own in b.listing && b.listing[own] !in b.paid
    ensures var next := b.(world := Settle(b.world, own, toSeller, withAsset).value,
                           paid := b.paid[b.listing[own] := Payment(toSeller, b.world.vaults[own])]);
      && Edge(StateOf(b.world, id), StateOf(next.world, id)) && VaultAt(next, id) && PaidAt(next, id) && NumbersOk(next)
  {}

  lemma SettleAsset(b: Books, w: World, own: Id, toSeller: bool, withAsset: bool, id: Id, a: Key)
    requires CustodyAt(b, id) && AssetAt(b, a) && CustodyAt(b, own) && own in b.world.orders
    requires Settle(b.world, own, toSeller, withAsset) == Ok(w)
    ensures CustodyAt(b.(world := w), id) && AssetAt(b.(world := w), a)
  {}

  lemma SettleAt(b: Books, own: Id, toSeller: bool, withAsset: bool, id: Id, a: Key)
    requires NumbersOk(b) && SoundAt(b, id, a) && SoundAt(b, own, a) && own in b.world.orders
    requires toSeller ==> b.world.orders[own].state in {Shipped, ReceiptScanned, Mismatch}
    requires !toSeller ==> b.world.orders[own].state in {Reserved, PreShipScanned, Shipped, Mismatch}
    requires Settle(b.world, own, toSeller, withAsset).Ok?
    ensures own in b.world.vaults && own in b.listing && b.listing[own] !in b.paid
    ensures Good(b, b.(world := Settle(b.world, own, toSeller, withAsset).value,
                       paid := b.paid[b.listing[own] := Payment(toSeller, b.world.vaults[own])]), id, a)
  {
    hide Settle, VaultAt, PaidAt, NumbersOk, Edge;
    var w := Settle(b.world, own, toSeller, withAsset).value;
    SettleMoney(b, own, toSeller, withAsset, id);
    SettleAsset(b, w, own, toSeller, withAsset, id, a);
  }

  /** A settlement goes to the seller only once shipped, and to the buyer never after a matching receipt scan. */
  lemma SettlementShape(w: World, i: Instruction, now: i64)
    requires Settles(i).Some? && Apply(w, i, now).Ok?
    ensures var (id, toSeller) := Settles(i).value;
      && id in w.orders
      && (toSeller ==> w.orders[id].state in {Shipped, ReceiptScanned, Mismatch})
      && (!toSeller ==> w.orders[id].state in {Reserved, PreShipScanned, Shipped, Mismatch})
      && Apply(w, i, now) == Settle(w, id, toSeller, i.withAsset)
  {
    hide Settle, Elapsed, ListStep, PreShipStep, ShipStep, ReceiptStep, DepositStep, CancelStep, CloseStep, ReserveStep,
        DonateStep, PayStep, GiveStep;
  }

  /** The state an instruction's scan or shipment leaves behind. */
  lemma MoveShape(w: World, i: Instruction, now: i64) returns (o: Order)
    requires (i.RecordPreShipScan? || i.Ship? || i.RecordReceiptScan?) && Apply(w, i, now).Ok?
    ensures i.id in w.orders && Apply(w, i, now).value == Outcome(w, i.id, o)
    ensures var was := w.orders[i.id];
      && IsFunded(was) && IsFunded(o) && Edge(Some(was.state), Some(o.state))
      && o.buyer == was.buyer && o.asset == was.asset && o.price == was.price && o.deposited == was.deposited
  {
    hide Settle, Elapsed, ScanError, ListStep, DepositStep, CancelStep, CloseStep, ReserveStep, DonateStep, PayStep,
        GiveStep,
      ReleaseStep, TimeoutStep, RefundStep, ResolveStep;
    o := Apply(w, i, now).value.orders[i.id];
  }

  /** Every instruction keeps the books sound and every order on the diagram. */
  lemma StepAt(b: Books, i: Instruction, now: i64, id: Id, a: Key)
    requires Sound(b)
    ensures Good(b, Kept(b, i, now), id, a)
    ensures Settles(i).Some? && Apply(b.world, i, now).Ok? ==>
              Settles(i).value.0 in b.listing && b.listing[Settles(i).value.0] !in b.paid
  {
    hide NumbersOk, SoundAt, Good, ListStep, PreShipStep, ShipStep, ReceiptStep, DepositStep, CancelStep, CloseStep,
        ReserveStep,
      DonateStep, PayStep, GiveStep, ReleaseStep, TimeoutStep, RefundStep, ResolveStep, Settle;
    assert SoundAt(b, id, a);
    Unchanged(b, id, a);
    if Apply(b.world, i, now).Err? {
    } else if Settles(i).Some? {
      var (own, toSeller) := Settles(i).value;
      assert SoundAt(b, own, a);
      SettlementShape(b.world, i, now);
      SettleAt(b, own, toSeller, i.withAsset, id, a);
    } else if i.RecordPreShipScan? || i.Ship? || i.RecordReceiptScan? {
      var o := MoveShape(b.world, i, now);
      MoveAt(b, i.id, o, id, a);
    } else {
      match i {
        case SetDisputeWindow(signer, seconds) => WindowAt(b, seconds, id, a);
        case List(own, price, p) => assert SoundAt(b, own, a); ListAt(b, own, price, p, id, a);
        case DepositAsset(own, signer) => assert SoundAt(b, own, a); DepositAt(b, own, signer, id, a);
        case Cancel(own, signer, withAsset) => assert SoundAt(b, own, a); CancelAt(b, own, signer, withAsset, id, a);
        case CloseOrder(own, signer) => assert SoundAt(b, own, a); CloseAt(b, own, signer, id, a);
        case Reserve(own, signer, price, p) => assert SoundAt(b, own, a);
            ReserveAt(b, own, signer, price, p, now, id, a);
        case Donate(own, signer, amount) => assert SoundAt(b, own, a); DonateAt(b, own, signer, amount, id, a);
        case Pay(signer, to, amount) => PayAt(b, signer, to, amount, id, a);
        case GiveAsset(signer, asset, to) => GiveAt(b, signer, asset, to, id, a);
        case _ =>
      }
    }
  }

  lemma Unchanged(b: Books, id: Id, a: Key)
    requires NumbersOk(b) && SoundAt(b, id, a)
    ensures Good(b, b, id, a)
  {}

  lemma WindowAt(b: Books, seconds: i64, id: Id, a: Key)
    requires NumbersOk(b) && SoundAt(b, id, a)
    ensures Good(b, b.(world := b.world.(window := seconds)), id, a)
  {}

  // ---------- runs ----------

  /** An instruction and the clock when it runs. */
  datatype Event = Event(instruction: Instruction, now: i64)

  function Run(b: Books, es: seq<Event>): Books
    decreases |es|
  {
    if es == [] then b else Run(Kept(b, es[0].instruction, es[0].now), es[1..])
  }

  /**
   * Over every run: an open vault holds the price and gifts and belongs to a funded order, deposited assets stay in
   * custody, listings pay once and to the right party, and no USDC appears or disappears.
   */
  lemma {:induction false} RunIsSound(b: Books, es: seq<Event>)
    requires Sound(b)
    ensures Sound(Run(b, es)) && Supply(Run(b, es).world) == Supply(b.world)
    decreases |es|
  {
    hide Kept, SoundAt, NumbersOk, Supply;
    if es != [] {
      var i, now := es[0].instruction, es[0].now;
      var next := Kept(b, i, now);
      forall id, a ensures SoundAt(next, id, a) && NumbersOk(next) {
        StepAt(b, i, now, id, a);
      }
      StepAt(b, i, now, Id(0, 0), 0);
      KeptWorld(b, i, now);
      StepConserves(b.world, i, now);
      RunIsSound(next, es[1..]);
    }
  }

  lemma KeptWorld(b: Books, i: Instruction, now: i64)
    ensures Kept(b, i, now).world == Step(b.world, i, now)
  {
    hide Apply;
  }

  /** No orders, no vaults, nothing in custody: where the program starts. */
  predicate Fresh(b: Books) {
    && b.world.orders == map[] && b.world.vaults == map[] && b.listing == map[] && b.paid == map[]
    && forall a :: a in b.world.assets ==> b.world.assets[a].Wallet?
  }

  lemma FreshIsSound(b: Books)
    requires Fresh(b)
    ensures Sound(b)
  {
    forall id: Id, a: Key ensures SoundAt(b, id, a) {}
  }

  /** From the start, over every run. */
  lemma EveryRunIsSound(b: Books, es: seq<Event>)
    requires Fresh(b)
    ensures Sound(Run(b, es)) && Supply(Run(b, es).world) == Supply(b.world)
  {
    hide Sound, Fresh, Run, Supply;
    FreshIsSound(b);
    RunIsSound(b, es);
  }

  /** A payment once made stands: each listing pays at most once in a run. */
  lemma {:induction false} PaidForGood(b: Books, es: seq<Event>, n: nat)
    requires Sound(b) && n in b.paid
    ensures n in Run(b, es).paid && Run(b, es).paid[n] == b.paid[n]
    decreases |es|
  {
    hide Sound, Apply;
    if es != [] {
      var i, now := es[0].instruction, es[0].now;
      StepAt(b, i, now, Id(0, 0), 0);
      RunIsSound(b, es[..1]);
      assert es[..1][0] == es[0] && es[..1][1..] == [];
      assert Run(Kept(b, i, now), []) == Kept(b, i, now);
      PaidForGood(Kept(b, i, now), es[1..], n);
    }
  }

  /** The price and nothing else is in the vault exactly when nobody else paid in. */
  lemma VaultHoldsPriceIff(b: Books, id: Id)
    requires Sound(b) && id in b.world.vaults
    ensures id in b.world.orders && id in b.gifts
        && (b.world.vaults[id] == b.world.orders[id].price <==> b.gifts[id] == 0)
  {
    assert SoundAt(b, id, 0);
  }

  const SOLD := Id(5, 1)
  const ITEM := PassportView(false, 9, 1, true)
  const OPENING := Books(World(0, MIN_WINDOW, map[], map[], map[2 := 100, 3 := 1], map[]), map[], 0, map[], map[])
  const GIFT_RUN := [Event(List(SOLD, 10, ITEM), 1), Event(Reserve(SOLD, 2, 10, ITEM), 2), Event(Donate(SOLD, 3, 1), 3)]

  /** List, reserve, and a stranger's gift of 1: the vault of a listing at 10 holds 11. */
  lemma GiftedVault()
    ensures Fresh(OPENING)
    ensures var w := Run(OPENING, GIFT_RUN).world;
      SOLD in w.orders && SOLD in w.vaults && w.orders[SOLD].price == 10 && w.vaults[SOLD] == 11
  {
    var listed := Kept(OPENING, GIFT_RUN[0].instruction, 1);
    GiftListed(listed);
    var reserved := Kept(listed, GIFT_RUN[1].instruction, 2);
    GiftReserved(listed, reserved);
    var gifted := Kept(reserved, GIFT_RUN[2].instruction, 3);
    assert gifted.world.vaults[SOLD] == 11;
    hide Kept;
    assert Run(OPENING, GIFT_RUN) == Run(listed, GIFT_RUN[1..]);
    assert GIFT_RUN[1..][0] == GIFT_RUN[1] && GIFT_RUN[1..][1..] == [GIFT_RUN[2]];
    assert Run(listed, GIFT_RUN[1..]) == Run(reserved, [GIFT_RUN[2]]);
    assert [GIFT_RUN[2]][1..] == [];
    assert Run(reserved, [GIFT_RUN[2]]) == Run(gifted, []) == gifted;
  }

  lemma GiftListed(listed: Books)
    requires listed == Kept(OPENING, List(SOLD, 10, ITEM), 1)
    ensures listed.world.orders == map[SOLD := Order(None, 9, 10, Listed, 0, 0, None, None, MIN_WINDOW, false)]
    ensures listed.world.(orders := map[]) == OPENING.world
  {}

  lemma GiftReserved(listed: Books, reserved: Books)
    requires listed.world.orders == map[SOLD := Order(None, 9, 10, Listed, 0, 0, None, None, MIN_WINDOW, false)]
    requires listed.world.(orders := map[]) == OPENING.world
    requires reserved == Kept(listed, Reserve(SOLD, 2, 10, ITEM), 2)
    ensures SOLD in reserved.world.orders && reserved.world.orders[SOLD].price == 10
    ensures SOLD in reserved.world.vaults && reserved.world.vaults[SOLD] == 10
        && Balance(reserved.world.wallets, 3) == 1
  {}

  // ---------- time ----------

  predicate BuyerTimeout(o: Order, now: i64) {
    BuyerDisputeReason(o.state, None, o.reservedAt, o.window, now) == Ok(Timeout)
  }

  predicate SellerTimeout(o: Order, now: i64) {
    CheckReleaseAfterTimeout(o.state, o.shippedAt, o.window, now) == Ok(())
  }

  /**
   * The buyer's refund and the seller's release by timeout are never both open, and each opens only after the window.
   */
  lemma TimeoutsExclusive(o: Order, now: i64)
    ensures !(BuyerTimeout(o, now) && SellerTimeout(o, now))
    ensures BuyerTimeout(o, now)
        <==> o.state in {Reserved, PreShipScanned} && o.reservedAt + EffectiveWindow(o.window) < now
    ensures SellerTimeout(o, now) <==> o.state == Shipped && o.shippedAt + EffectiveWindow(o.window) < now
  {}

  /** When the step an order is waiting on began. */
  function StepTime(o: Order): i64 {
    if o.state == Shipped then o.shippedAt else if o.state == ReceiptScanned then I64_MIN else o.reservedAt
  }

  /** Settles order `id` without the admin. */
  function WayOut(b: Books, id: Id): Instruction
    requires id in b.world.orders && b.world.orders[id].buyer.Some?
  {
    var o := b.world.orders[id];
    if o.state == ReceiptScanned then Release(id, true)
    else if o.state == Shipped then ReleaseAfterTimeout(id, true)
    else Refund(id, o.buyer.value, None, true)
  }

  /**
   * 60 days after its step, every funded order but a MISMATCH can be settled by its parties or anyone, never needing
   * the admin.
   */
  lemma AlwaysAWayOut(b: Books, id: Id, now: i64)
    requires Sound(b) && id in b.world.orders && IsFunded(b.world.orders[id]) && b.world.orders[id].state != Mismatch
    requires now > StepTime(b.world.orders[id]) + MAX_WINDOW
    ensures b.world.orders[id].buyer.Some? && Apply(b.world, WayOut(b, id), now).Ok?
    ensures Step(b.world, WayOut(b, id), now).orders[id].state
        == if b.world.orders[id].state in {Shipped, ReceiptScanned} then Released else Dispute
  {
    assert SoundAt(b, id, b.world.orders[id].asset);
  }

  /** A MISMATCH ends by the admin's word alone. */
  lemma MismatchNeedsAdmin(w: World, i: Instruction, now: i64, id: Id)
    requires id in w.orders && w.orders[id].state == Mismatch && StateOf(Step(w, i, now), id) != Some(Mismatch)
    ensures i.Resolve? && i.id == id && i.signer == w.admin
  {
    hide Elapsed, EffectiveWindow, SellerAllowed, Balance, ScanError, Matches, IsFunded;
  }

  predicate SignedBy(i: Instruction, k: Key) {
    match i
    case Refund(_, signer, _, _) => signer == k
    case Resolve(_, signer, _, _, _) => signer == k
    case _ => false
  }

  /**
   * What it takes to settle, by state and receiver, whichever instruction is used: only the admin decides a MISMATCH or
   * takes a shipped order back; without the admin a shipped order pays the seller only after the window, and an order
   * not shipped pays the buyer only on the buyer's own word, after the window or with a dead seal of this passport.
   */
  lemma SettlementNeeds(w: World, i: Instruction, now: i64)
    requires Settles(i).Some? && Apply(w, i, now).Ok?
    ensures var (id, toSeller) := Settles(i).value;
      && id in w.orders
      && var o := w.orders[id];
      && (o.state == Mismatch ==> SignedBy(i, w.admin))
      && (toSeller && o.state == Shipped ==> o.shippedAt + EffectiveWindow(o.window) < now)
      && (!toSeller && o.state == Shipped ==> SignedBy(i, w.admin))
      && (!toSeller && o.state in {Reserved, PreShipScanned} && !SignedBy(i, w.admin) ==>
            && i.Refund? && Some(i.signer) == o.buyer
            && if i.sealView.Some? then i.sealView.value.dead && i.sealView.value.passport == id.passport
               else o.reservedAt + EffectiveWindow(o.window) < now)
  {
    hide Settle, ListStep, PreShipStep, ShipStep, ReceiptStep, DepositStep, CancelStep, CloseStep, ReserveStep,
        DonateStep, PayStep, GiveStep;
    SettlementShape(w, i, now);
  }

  // ---------- when each instruction is accepted, and what it does ----------

  /** The rule for sellers: the Core asset's owner, or without an asset the issuer while active. */
  predicate MaySell(w: World, seller: Key, asset: Key, p: PassportView) {
    (asset in w.assets && w.assets[asset] == Wallet(seller))
        || (asset !in w.assets && p.issuer == seller && p.issuerActive)
  }

  lemma ListIff(w: World, id: Id, price: nat, p: PassportView, now: i64)
    ensures var r := Apply(w, List(id, price, p), now);
      && (r.Ok? <==> id !in w.orders && price > 0 && !p.isVoid && MaySell(w, id.seller, p.asset, p))
      && (r.Ok? ==> r.value == w.(orders := w.orders[id := r.value.orders[id]]))
      && (r.Ok? ==> var o := r.value.orders[id];
            && o.state == Listed && o.price == price && o.asset == p.asset && o.buyer == None && !o.deposited
            && o.sellerScan == None && o.buyerScan == None && o.window == EffectiveWindow(w.window))
  {}

  lemma DepositIff(w: World, id: Id, signer: Key, now: i64)
    ensures var r := Apply(w, DepositAsset(id, signer), now);
      && (r.Ok? <==>
            && id in w.orders && signer == id.seller && w.orders[id].state == Listed && !w.orders[id].deposited
            && w.orders[id].asset in w.assets && w.assets[w.orders[id].asset] == Wallet(id.seller))
      && (r.Ok? ==> r.value == w.(orders := w.orders[id := w.orders[id].(deposited := true)],
                                  assets := w.assets[w.orders[id].asset := Custody(id)]))
  {}

  /** The asset can leave custody when there is none, or with its accounts. */
  predicate Returnable(w: World, id: Id, withAsset: bool)
    requires id in w.orders
  {
    w.orders[id].deposited ==>
      withAsset && w.orders[id].asset in w.assets && w.assets[w.orders[id].asset] == Custody(id)
  }

  function AssetsAfter(w: World, id: Id, to: Key): map<Key, Holder>
    requires id in w.orders
  {
    if w.orders[id].deposited then w.assets[w.orders[id].asset := Wallet(to)] else w.assets
  }

  lemma CancelIff(w: World, id: Id, signer: Key, withAsset: bool, now: i64)
    ensures var r := Apply(w, Cancel(id, signer, withAsset), now);
      && (r.Ok? <==>
            && id in w.orders && signer == id.seller && w.orders[id].state == Listed && Returnable(w, id, withAsset))
      && (r.Ok? ==> r.value == w.(orders := w.orders[id := w.orders[id].(state := Cancelled, deposited := false)],
                                  assets := AssetsAfter(w, id, id.seller)))
  {}

  lemma CloseIff(w: World, id: Id, signer: Key, now: i64)
    ensures var r := Apply(w, CloseOrder(id, signer), now);
      && (r.Ok? <==> id in w.orders && signer == id.seller && w.orders[id].state in {Released, Dispute, Cancelled})
      && (r.Ok? ==> r.value == w.(orders := w.orders - {id}))
  {}

  /** A reservation moves exactly the price that the buyer saw from the buyer into the vault. */
  lemma ReserveIff(w: World, id: Id, signer: Key, seen: nat, p: PassportView, now: i64)
    ensures var r := Apply(w, Reserve(id, signer, seen, p), now);
      && (r.Ok? <==>
            && id in w.orders && w.orders[id].state == Listed && signer != id.seller && w.orders[id].price == seen
            && !p.isVoid && (w.orders[id].deposited || MaySell(w, id.seller, w.orders[id].asset, p))
            && Balance(w.wallets, signer) >= seen)
      && (r.Ok? ==>
            && r.value.orders == w.orders[id := w.orders[id].(buyer := Some(signer), reservedAt := now,
                state := Reserved)]
            && r.value.wallets == w.wallets[signer := Balance(w.wallets, signer) - seen]
            && r.value.vaults == w.vaults[id := (if id in w.vaults then w.vaults[id] else 0) + seen]
            && r.value.assets == w.assets && r.value.admin == w.admin && r.value.window == w.window)
  {}

  /**
   * A scan stands for a step when it is the party's own, of a seal of this passport, and at most 600 s before the step.
   */
  predicate StandsFor(scan: ScanProof, seal: SealView, id: Id, party: Key, step: i64) {
    scan.seal == seal.key && seal.passport == id.passport && scan.attester == party && scan.ts >= step - 600
  }

  lemma PreShipIff(w: World, id: Id, signer: Key, scan: ScanProof, seal: SealView, now: i64)
    ensures var r := Apply(w, RecordPreShipScan(id, signer, scan, seal), now);
      && (r.Ok? <==> id in w.orders && signer == id.seller && w.orders[id].state == Reserved
                     && StandsFor(scan, seal, id, id.seller, w.orders[id].reservedAt))
      && (r.Ok? ==>
            var o := w.orders[id].(sellerScan := Some(scan.key), state := PreShipScanned);
            r.value == w.(orders := w.orders[id := o]))
  {}

  lemma ShipIff(w: World, id: Id, signer: Key, now: i64)
    ensures var r := Apply(w, Ship(id, signer), now);
      && (r.Ok? <==> id in w.orders && signer == id.seller && w.orders[id].state == PreShipScanned)
      && (r.Ok? ==> r.value == w.(orders := w.orders[id := w.orders[id].(shippedAt := now, state := Shipped)]))
  {}

  /**
   * A receipt scan is taken from the buyer alone: the buyer's own scan of a seal of this passport, from after shipping
   * and, on the seller's seal, with a later counter. The order then matches if and only if heat and humidity are equal
   * and the fills differ by at most 5.
   */
  lemma ReceiptIff(w: World, id: Id, signer: Key, scan: ScanProof, seal: SealView, other: ScanProof, now: i64)
    ensures var r := Apply(w, RecordReceiptScan(id, signer, scan, seal, other), now);
      && (r.Ok? <==>
            && id in w.orders && w.orders[id].state == Shipped && w.orders[id].buyer == Some(signer)
            && w.orders[id].sellerScan == Some(other.key) && StandsFor(scan, seal, id, signer, w.orders[id].shippedAt)
            && (scan.seal == other.seal ==> scan.counter > other.counter))
      && (r.Ok? ==>
            var matched := scan.heat == other.heat && scan.hum == other.hum
                && other.fill - 5 <= scan.fill <= other.fill + 5;
            r.value == w.(orders := w.orders[id := w.orders[id].(
              buyerScan := Some(scan.key), state := if matched then ReceiptScanned else Mismatch)]))
  {}

  /** The window of an order is over; a deadline beyond the clock's range never is. */
  predicate Over(start: i64, o: Order, now: i64) {
    start + EffectiveWindow(o.window) <= I64_MAX && now > start + EffectiveWindow(o.window)
  }

  /** By whom, when and for whom an order may be settled. */
  predicate MaySettle(w: World, i: Instruction, now: i64) {
    match i
    case Release(id, _) => id in w.orders && w.orders[id].state == ReceiptScanned
    case ReleaseAfterTimeout(id, _) =>
      id in w.orders && w.orders[id].state == Shipped && Over(w.orders[id].shippedAt, w.orders[id], now)
    case Refund(id, signer, seal, _) =>
      && id in w.orders
      && var o := w.orders[id];
      && if signer == w.admin then o.state in {Reserved, PreShipScanned, Shipped}
         else o.buyer == Some(signer) && o.state in {Reserved, PreShipScanned}
              && if seal.Some? then seal.value.passport == id.passport
                  && seal.value.dead else Over(o.reservedAt, o, now)
    case Resolve(id, signer, toSeller, recipient, _) =>
      && id in w.orders && signer == w.admin && w.orders[id].state == Mismatch
      && Some(recipient) == if toSeller then Some(id.seller) else w.orders[id].buyer
    case _ => false
  }

  /**
   * A settlement is accepted exactly for those who may, and closes everything at once: the whole vault goes to one
   * party and a deposited asset to the other.
   */
  lemma SettleIff(w: World, i: Instruction, now: i64)
    requires Settles(i).Some?
    ensures var r, (id, toSeller) := Apply(w, i, now), Settles(i).value;
      && (r.Ok? <==>
            && MaySettle(w, i, now) && id in w.vaults && w.orders[id].buyer.Some? && Returnable(w, id, i.withAsset))
      && (r.Ok? ==>
            var buyer := w.orders[id].buyer.value;
            var payee, taker := if toSeller then id.seller else buyer, if toSeller then buyer else id.seller;
            && r.value.vaults == w.vaults - {id}
            && r.value.wallets == w.wallets[payee := Balance(w.wallets, payee) + w.vaults[id]]
            && r.value.assets == AssetsAfter(w, id, taker)
            && r.value.orders == w.orders[id := w.orders[id].(state := if toSeller then Released
                else Dispute, deposited := false)]
            && r.value.admin == w.admin && r.value.window == w.window)
  {
    var (id, toSeller) := Settles(i).value;
    AcceptsIff(w, i, now);
    if id in w.orders { SettleEffect(w, id, toSeller, i.withAsset); }
    hide Settle, MaySettle, Returnable, Apply;
  }

  lemma AcceptsIff(w: World, i: Instruction, now: i64)
    requires Settles(i).Some?
    ensures var r, (id, toSeller) := Apply(w, i, now), Settles(i).value;
      && (r.Ok? <==> MaySettle(w, i, now) && id in w.orders && Settle(w, id, toSeller, i.withAsset).Ok?)
      && (r.Ok? ==> r == Settle(w, id, toSeller, i.withAsset))
      && (MaySettle(w, i, now) ==> id in w.orders)
  {
    hide Settle, ListStep, PreShipStep, ShipStep, ReceiptStep, DepositStep, CancelStep, CloseStep, ReserveStep,
        DonateStep,
      PayStep, GiveStep, EffectiveWindow;
  }

  lemma SettleEffect(w: World, id: Id, toSeller: bool, withAsset: bool)
    requires id in w.orders
    ensures var r := Settle(w, id, toSeller, withAsset);
      && (r.Ok? <==> id in w.vaults && w.orders[id].buyer.Some? && Returnable(w, id, withAsset))
      && (r.Ok? ==>
            var buyer := w.orders[id].buyer.value;
            var payee, taker := if toSeller then id.seller else buyer, if toSeller then buyer else id.seller;
            && r.value.vaults == w.vaults - {id}
            && r.value.wallets == w.wallets[payee := Balance(w.wallets, payee) + w.vaults[id]]
            && r.value.assets == AssetsAfter(w, id, taker)
            && r.value.orders == w.orders[id := w.orders[id].(state := if toSeller then Released
                else Dispute, deposited := false)]
            && r.value.admin == w.admin && r.value.window == w.window)
  {}

  lemma WindowIff(w: World, signer: Key, seconds: i64, now: i64)
    ensures var r := Apply(w, SetDisputeWindow(signer, seconds), now);
      && (r.Ok? <==> signer == w.admin && 3600 <= seconds <= 5_184_000)
      && (r.Ok? ==> r.value == w.(window := seconds))
  {}

  /** A window is over strictly after its end, however the order was written; past the clock's range it is an error. */
  lemma ElapsedIff(start: i64, window: i64, now: i64)
    ensures var length := if window < 3600 then 3600 else if window > 5_184_000 then 5_184_000 else window;
      && (Elapsed(start, window, now) == Err(MathOverflow) <==> start + length >= 0x8000_0000_0000_0000)
      && (Elapsed(start, window, now) == Ok(true) <==> start + length < now)
  {}

  /** What a buyer who asks for a refund is told: the reason it is given for, or why not. */
  lemma RefundAnswers(s: State, dead: Option<bool>, reservedAt: i64, window: i64, now: i64)
    ensures var r := BuyerDisputeReason(s, dead, reservedAt, window, now);
      && (r == Err(ReceiptMatched) <==> s == ReceiptScanned)
      && (r == Err(SealNotDead) <==> s != ReceiptScanned && dead == Some(false))
      && (r == Err(DeadSealAfterShipping) <==> s == Shipped && dead == Some(true))
      && (r == Ok(SealDead) <==> s in {Reserved, PreShipScanned} && dead == Some(true))
      && (r == Ok(Timeout) <==>
          s in {Reserved, PreShipScanned} && dead == None && Elapsed(reservedAt, window, now) == Ok(true))
      && (r == Err(DisputeWindowNotElapsed)
          <==> s in {Reserved, PreShipScanned} && dead == None && Elapsed(reservedAt, window, now) == Ok(false))
      && r != Ok(ByAdmin)
  {}

  /** An asset in a wallet goes where its owner gives it. */
  lemma GiveIff(w: World, signer: Key, asset: Key, to: Key, now: i64)
    ensures var r := Apply(w, GiveAsset(signer, asset, to), now);
      && (r.Ok? <==> asset in w.assets && w.assets[asset] == Wallet(signer))
      && (r.Ok? ==> r.value == w.(assets := w.assets[asset := Wallet(to)]))
  {}

  // ---------- the instruction handlers ----------

  /** A handler ends as its step says: the new accounts, or an error and everything as before. */
  predicate Ends(step: Next, before: World, after: World, error: Option<Error>) {
    match step
    case Ok(next) => error == None && after == next
    case Err(e) => error == Some(e) && after == before
  }

  class Program {
    const admin: Key
    var window: i64
    var orders: map<Id, Order>
    var vaults: map<Id, nat>
    var wallets: map<Key, nat>
    var assets: map<Key, Holder>

    constructor (w: World)
      ensures Accounts() == w
    {
      admin, window, orders, vaults, wallets, assets := w.admin, w.window, w.orders, w.vaults, w.wallets, w.assets;
    }

    function Accounts(): World
      reads this
    {
      World(admin, window, orders, vaults, wallets, assets)
    }

    method HandleList(id: Id, price: nat, p: PassportView) returns (e: Option<Error>)
      modifies this
      ensures Ends(ListStep(old(Accounts()), id, price, p), old(Accounts()), Accounts(), e)
    {
      if id in orders { return Some(AccountInUse); }
      if price == 0 { return Some(InvalidPrice); }
      if p.isVoid { return Some(PassportVoid); }
      if !SellerAllowed(Accounts(), id.seller, p.asset, p) { return Some(NotPassportOwner); }
      orders := orders[id := Order(None, p.asset, price, Listed, 0, 0, None, None, EffectiveWindow(window), false)];
      e := None;
    }

    method HandleDepositAsset(id: Id, signer: Key) returns (e: Option<Error>)
      modifies this
      ensures Ends(DepositStep(old(Accounts()), id, signer), old(Accounts()), Accounts(), e)
    {
      if id !in orders { return Some(AccountNotFound); }
      if signer != id.seller { return Some(NotSeller); }
      var o := orders[id];
      if o.state != Listed { return Some(InvalidState); }
      if o.deposited { return Some(AssetAlreadyDeposited); }
      if o.asset !in assets || assets[o.asset] != Wallet(signer) { return Some(CoreTransferFailed); }
      assets := assets[o.asset := Custody(id)];
      orders := orders[id := o.(deposited := true)];
      e := None;
    }

    method TransferOut(id: Id, withAsset: bool, to: Key) returns (e: Option<Error>)
      requires id in orders
      modifies this
      ensures Ends(ReturnAsset(old(Accounts()), id, withAsset, to), old(Accounts()), Accounts(), e)
    {
      var o := orders[id];
      if !o.deposited { return None; }
      if !withAsset { return Some(MissingAssetAccounts); }
      if o.asset !in assets || assets[o.asset] != Custody(id) { return Some(CoreTransferFailed); }
      assets := assets[o.asset := Wallet(to)];
      e := None;
    }

    method HandleCancel(id: Id, signer: Key, withAsset: bool) returns (e: Option<Error>)
      modifies this
      ensures Ends(CancelStep(old(Accounts()), id, signer, withAsset), old(Accounts()), Accounts(), e)
    {
      hide ReturnAsset;
      if id !in orders { return Some(AccountNotFound); }
      if signer != id.seller { return Some(NotSeller); }
      var o := orders[id];
      if o.state != Listed { return Some(InvalidState); }
      ReturnKeepsOrders(Accounts(), id, withAsset, id.seller);
      e := TransferOut(id, withAsset, id.seller);
      if e.Some? { return; }
      orders := orders[id := o.(state := Cancelled, deposited := false)];
    }

    method HandleCloseOrder(id: Id, signer: Key) returns (e: Option<Error>)
      modifies this
      ensures Ends(CloseStep(old(Accounts()), id, signer), old(Accounts()), Accounts(), e)
    {
      if id !in orders { return Some(AccountNotFound); }
      if signer != id.seller { return Some(NotSeller); }
      if !IsTerminal(orders[id]) { return Some(InvalidState); }
      orders := orders - {id};
      e := None;
    }

    method HandleReserve(id: Id, signer: Key, expectedPrice: nat, p: PassportView, now: i64) returns (e: Option<Error>)
      modifies this
      ensures Ends(ReserveStep(old(Accounts()), id, signer, expectedPrice, p, now), old(Accounts()), Accounts(), e)
    {
      if id !in orders { return Some(AccountNotFound); }
      var o := orders[id];
      if o.state != Listed { return Some(InvalidState); }
      if signer == id.seller { return Some(SellerCannotBuy); }
      if o.price != expectedPrice { return Some(PriceChanged); }
      if p.isVoid { return Some(PassportVoid); }
      if !o.deposited && !SellerAllowed(Accounts(), id.seller, o.asset, p) { return Some(NotPassportOwner); }
      if Balance(wallets, signer) < o.price { return Some(InsufficientFunds); }
      var held := if id in vaults then vaults[id] else 0;
      wallets := wallets[signer := Balance(wallets, signer) - o.price];
      vaults := vaults[id := held + o.price];
      orders := orders[id := o.(buyer := Some(signer), reservedAt := now, state := Reserved)];
      e := None;
    }

    method HandleRecordPreShipScan(id: Id, signer: Key, scan: ScanProof, seal: SealView) returns (e: Option<Error>)
      modifies this
      ensures Ends(PreShipStep(old(Accounts()), id, signer, scan, seal), old(Accounts()), Accounts(), e)
    {
      hide ScanError;
      if id !in orders { return Some(AccountNotFound); }
      if signer != id.seller { return Some(NotSeller); }
      var o := orders[id];
      if o.state != Reserved { return Some(InvalidState); }
      e := ScanError(id, scan, seal, id.seller, o.reservedAt);
      if e.Some? { return; }
      orders := orders[id := o.(sellerScan := Some(scan.key), state := PreShipScanned)];
    }

    method HandleShip(id: Id, signer: Key, now: i64) returns (e: Option<Error>)
      modifies this
      ensures Ends(ShipStep(old(Accounts()), id, signer, now), old(Accounts()), Accounts(), e)
    {
      if id !in orders { return Some(AccountNotFound); }
      if signer != id.seller { return Some(NotSeller); }
      if orders[id].state != PreShipScanned { return Some(InvalidState); }
      orders := orders[id := orders[id].(shippedAt := now, state := Shipped)];
      e := None;
    }

    method HandleRecordReceiptScan(id: Id, signer: Key, scan: ScanProof, seal: SealView, sellerScan: ScanProof)
        returns (e: Option<Error>)
      modifies this
      ensures Ends(ReceiptStep(old(Accounts()), id, signer, scan, seal, sellerScan), old(Accounts()), Accounts(), e)
    {
      hide ScanError;
      if id !in orders { return Some(AccountNotFound); }
      var o := orders[id];
      if o.buyer != Some(signer) { return Some(NotBuyer); }
      if o.sellerScan != Some(sellerScan.key) { return Some(SellerScanMismatch); }
      if o.state != Shipped { return Some(InvalidState); }
      e := ScanError(id, scan, seal, signer, o.shippedAt);
      if e.Some? { return; }
      if scan.seal == sellerScan.seal && scan.counter <= sellerScan.counter { return Some(ReceiptScanNotNewer); }
      var matched := scan.heat == sellerScan.heat && scan.hum == sellerScan.hum
          && Distance(scan.fill, sellerScan.fill) <= FILL_TOLERANCE;
      orders := orders[id := o.(buyerScan := Some(scan.key), state := if matched then ReceiptScanned else Mismatch)];
    }

    /** drain_vault and return_asset; the runtime undoes the transfer when the second fails. */
    method SettleOrder(id: Id, toSeller: bool, withAsset: bool) returns (e: Option<Error>)
      requires id in orders
      modifies this
      ensures Ends(Settle(old(Accounts()), id, toSeller, withAsset), old(Accounts()), Accounts(), e)
    {
      hide ReturnAsset;
      var o := orders[id];
      if id !in vaults || o.buyer == None { return Some(AccountNotFound); }
      var wallets0, vaults0 := wallets, vaults;
      var to: Key := if toSeller then id.seller else o.buyer.value;
      wallets := wallets[to := Balance(wallets, to) + vaults[id]];
      vaults := vaults - {id};
      ReturnKeepsOrders(Accounts(), id, withAsset, if toSeller then o.buyer.value else id.seller);
      e := TransferOut(id, withAsset, if toSeller then o.buyer.value else id.seller);
      if e.Some? {
        wallets, vaults := wallets0, vaults0;
        return;
      }
      orders := orders[id := o.(state := if toSeller then Released else Dispute, deposited := false)];
    }

    method HandleRelease(id: Id, withAsset: bool) returns (e: Option<Error>)
      modifies this
      ensures Ends(ReleaseStep(old(Accounts()), id, withAsset), old(Accounts()), Accounts(), e)
    {
      hide Settle;
      if id !in orders { return Some(AccountNotFound); }
      if orders[id].state != ReceiptScanned { return Some(InvalidState); }
      e := SettleOrder(id, true, withAsset);
    }

    method HandleReleaseAfterTimeout(id: Id, withAsset: bool, now: i64) returns (e: Option<Error>)
      modifies this
      ensures Ends(TimeoutStep(old(Accounts()), id, withAsset, now), old(Accounts()), Accounts(), e)
    {
      hide Settle, CheckReleaseAfterTimeout;
      if id !in orders { return Some(AccountNotFound); }
      var check := CheckReleaseAfterTimeout(orders[id].state, orders[id].shippedAt, orders[id].window, now);
      if check.Err? { return Some(check.error); }
      e := SettleOrder(id, true, withAsset);
    }

    method HandleDispute(id: Id, signer: Key, sealView: Option<SealView>, withAsset: bool, now: i64)
        returns (e: Option<Error>)
      modifies this
      ensures Ends(RefundStep(old(Accounts()), id, signer, sealView, withAsset, now), old(Accounts()), Accounts(), e)
    {
      hide Settle, BuyerDisputeReason;
      if id !in orders { return Some(AccountNotFound); }
      var o := orders[id];
      if signer == admin {
        if !AdminMayRefund(o.state) { return Some(InvalidState); }
      } else if o.buyer == Some(signer) {
        var sealDead: Option<bool> := None;
        if sealView.Some? {
          if sealView.value.passport != id.passport { return Some(SealPassportMismatch); }
          sealDead := Some(sealView.value.dead);
        }
        var reason := BuyerDisputeReason(o.state, sealDead, o.reservedAt, o.window, now);
        if reason.Err? { return Some(reason.error); }
      } else {
        return Some(Unauthorized);
      }
      e := SettleOrder(id, false, withAsset);
    }

    method HandleResolve(id: Id, signer: Key, toSeller: bool, recipient: Key, withAsset: bool)
        returns (e: Option<Error>)
      modifies this
      ensures Ends(ResolveStep(old(Accounts()), id, signer, toSeller, recipient, withAsset), old(Accounts()),
          Accounts(), e)
    {
      hide Settle;
      if id !in orders { return Some(AccountNotFound); }
      if signer != admin { return Some(Unauthorized); }
      if orders[id].state != Mismatch { return Some(InvalidState); }
      if Some(recipient) != (if toSeller then Some(id.seller) else orders[id].buyer) { return Some(WrongTokenOwner); }
      e := SettleOrder(id, toSeller, withAsset);
    }
  }

  lemma ReturnKeepsOrders(w: World, id: Id, withAsset: bool, to: Key)
    requires id in w.orders
    ensures ReturnAsset(w, id, withAsset, to).Ok? ==>
      var next := ReturnAsset(w, id, withAsset, to).value;
      next.orders == w.orders && next.wallets == w.wallets && next.vaults == w.vaults
  {}
}
