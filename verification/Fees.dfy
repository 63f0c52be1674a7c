/**
 The epoch-delayed fee schedule (core/src/fees.rs): two fee slots with activation
 epochs, one in force while the other may be prepared.
 */
module Fees {
  import opened Prelude
  import opened NcnErrors

  const MAX_FEE_BPS: nat := 10_000
  const PROTOCOL_FEE_BPS: U16 := 400

  datatype FeeSlot = FeeSlot(activationEpoch: U64, protocolFeeBps: U16, ncnFeeBps: U16)
  {
    function TotalBps(): nat { protocolFeeBps + ncnFeeBps }
  }

  datatype FeeView = FeeView(ncnFeeWallet: Pubkey, fee1: FeeSlot, fee2: FeeSlot)

  // ----- slot selection -----

  function CurrentFees(v: FeeView, epoch: U64): FeeSlot {
    if v.fee1.activationEpoch > epoch then v.fee2
    else if v.fee2.activationEpoch > epoch then v.fee1
    else if v.fee1.activationEpoch >= v.fee2.activationEpoch then v.fee1
    else v.fee2
  }

  predicate UpdatableIsFirst(v: FeeView, epoch: U64) {
    v.fee1.activationEpoch > epoch
    || (v.fee2.activationEpoch <= epoch && v.fee1.activationEpoch <= v.fee2.activationEpoch)
  }

  function UpdatableFees(v: FeeView, epoch: U64): FeeSlot {
    if UpdatableIsFirst(v, epoch) then v.fee1 else v.fee2
  }

  function WithUpdatable(v: FeeView, epoch: U64, fees: FeeSlot): FeeView {
    if UpdatableIsFirst(v, epoch) then v.(fee1 := fees) else v.(fee2 := fees)
  }

  function FeesOkay(v: FeeView, epoch: U64): Result<(), NcnError> {
    var total := CurrentFees(v, epoch).TotalBps();
    if total > MAX_FEE_BPS then Err(FeeCapExceeded)
    else if total == 0 then Err(TotalFeesCannotBeZero)
    else Ok(())
  }

  function NewConfig(wallet: Pubkey, ncnFeeBps: U16, epoch: U64): Result<FeeView, NcnError> {
    if wallet == DEFAULT_PUBKEY then Err(DefaultNcnWallet)
    else if ncnFeeBps > MAX_FEE_BPS then Err(FeeCapExceeded)
    else
      var fees := FeeSlot(epoch, PROTOCOL_FEE_BPS, ncnFeeBps);
      var v := FeeView(wallet, fees, fees);
      var _ :- FeesOkay(v, epoch);
      Ok(v)
  }

  // ----- one update -----

  /** Copy the fees in force into the slot being prepared. */
  function SetToCurrent(v: FeeView, epoch: U64): Result<FeeView, NcnError> {
    if v.fee1.activationEpoch > epoch || v.fee2.activationEpoch > epoch then Err(FeeNotActive)
    else Ok(WithUpdatable(v, epoch, CurrentFees(v, epoch)))
  }

  function WithNcnFee(v: FeeView, bps: U16, epoch: U64): Result<FeeView, NcnError> {
    if bps > MAX_FEE_BPS then Err(FeeCapExceeded)
    else Ok(WithUpdatable(v, epoch, UpdatableFees(v, epoch).(ncnFeeBps := bps)))
  }

  function Activated(v: FeeView, epoch: U64): Result<FeeView, NcnError> {
    if epoch == U64_MAX then Err(ArithmeticOverflow)
    else Ok(WithUpdatable(v, epoch, UpdatableFees(v, epoch).(activationEpoch := epoch + 1)))
  }

  /** The updatable slot holds the new fees, not yet activated. */
  function Prepared(v: FeeView, bps: Option<U16>, wallet: Option<Pubkey>, epoch: U64): Result<FeeView, NcnError> {
    var fresh_ :- if UpdatableFees(v, epoch).activationEpoch <= epoch then SetToCurrent(v, epoch) else Ok(v);
    var priced :- if bps.Some? then WithNcnFee(fresh_, bps.value, epoch) else Ok(fresh_);
    Ok(if wallet.Some? then priced.(ncnFeeWallet := wallet.value) else priced)
  }

  function Updated(v: FeeView, bps: Option<U16>, wallet: Option<Pubkey>, epoch: U64): Result<FeeView, NcnError> {
    var prepared :- Prepared(v, bps, wallet, epoch);
    var active :- Activated(prepared, epoch);
    var _ :- FeesOkay(active, epoch);
    var _ :- FeesOkay(active, epoch + 1);
    Ok(active)
  }

  // ----- what an update means -----

  ghost predicate SlotOk(fees: FeeSlot) {
    fees.protocolFeeBps == PROTOCOL_FEE_BPS && fees.TotalBps() <= MAX_FEE_BPS
  }

  /** The state between updates, the last of which came at epoch `last`: no slot
      waits beyond the next epoch, not both wait, and slots with one activation
      epoch hold the same fees. */
  ghost predicate ScheduleOk(v: FeeView, last: U64) {
    && v.fee1.activationEpoch <= last + 1 && v.fee2.activationEpoch <= last + 1
    && (v.fee1.activationEpoch <= last || v.fee2.activationEpoch <= last)
    && (v.fee1.activationEpoch == v.fee2.activationEpoch ==> v.fee1 == v.fee2)
    && SlotOk(v.fee1) && SlotOk(v.fee2)
  }

  /** Copying can change which slot is the updatable one, but only between two
      slots that have just become equal. */
  lemma CopyMakesSlotsEqual(v: FeeView, last: U64, epoch: U64)
    requires ScheduleOk(v, last) && last <= epoch && SetToCurrent(v, epoch).Ok?
    ensures var copied := SetToCurrent(v, epoch).value;
            copied.fee1 == copied.fee2 == CurrentFees(v, epoch)
  {}

  /** An update at epoch e leaves the fees of e alone and sets the fees of every
      later epoch: to the requested value, or to what was already scheduled. */
  lemma UpdateIsDelayed(v: FeeView, last: U64, bps: Option<U16>, wallet: Option<Pubkey>, epoch: U64, read: U64)
    requires ScheduleOk(v, last) && last <= epoch <= read
    requires Updated(v, bps, wallet, epoch).Ok?
    ensures var w := Updated(v, bps, wallet, epoch).value;
            && ScheduleOk(w, epoch)
            && CurrentFees(w, read).ncnFeeBps ==
               (if read > epoch && bps.Some? then bps.value else CurrentFees(v, read).ncnFeeBps)
            && w.ncnFeeWallet == (if wallet.Some? then wallet.value else v.ncnFeeWallet)
  {
    if UpdatableFees(v, epoch).activationEpoch <= epoch {
      CopyMakesSlotsEqual(v, last, epoch);
    }
  }

  /** An update is refused only for a fee that leaves no room for the protocol
      fee, or at the very last epoch. */
  lemma UpdateSucceedsIff(v: FeeView, last: U64, bps: Option<U16>, wallet: Option<Pubkey>, epoch: U64)
    requires ScheduleOk(v, last) && last <= epoch
    ensures Updated(v, bps, wallet, epoch).Ok? <==>
            epoch < U64_MAX && (bps.Some? ==> bps.value + PROTOCOL_FEE_BPS <= MAX_FEE_BPS)
  {
    if UpdatableFees(v, epoch).activationEpoch <= epoch {
      CopyMakesSlotsEqual(v, last, epoch);
    }
  }

  // ----- runs -----

  datatype FeeCall = FeeCall(bps: Option<U16>, wallet: Option<Pubkey>, epoch: U64)

  /** Calls in order; a failing call changes nothing. */
  function FeeRun(initial: FeeView, calls: seq<FeeCall>): FeeView {
    if calls == [] then initial
    else
      var before, c := FeeRun(initial, calls[..|calls| - 1]), calls[|calls| - 1];
      match Updated(before, c.bps, c.wallet, c.epoch)
      case Err(_) => before
      case Ok(after) => after
  }

  /** The last fee requested, by a call that succeeded, before the epoch. */
  function RequestedBefore(initial: FeeView, calls: seq<FeeCall>, epoch: U64): U16 {
    if calls == [] then initial.fee1.ncnFeeBps
    else
      var before, c := calls[..|calls| - 1], calls[|calls| - 1];
      if c.bps.Some? && c.epoch < epoch && Updated(FeeRun(initial, before), c.bps, c.wallet, c.epoch).Ok?
      then c.bps.value
      else RequestedBefore(initial, before, epoch)
  }

  /** Epochs start at the creation epoch and never decrease. */
  ghost predicate InEpochOrder(created: U64, calls: seq<FeeCall>) {
    && (forall i :: 0 <= i < |calls| ==> created <= calls[i].epoch)
    && (forall i, j :: 0 <= i < j < |calls| ==> calls[i].epoch <= calls[j].epoch)
  }

  function LastEpoch(created: U64, calls: seq<FeeCall>): U64 {
    if calls == [] then created else calls[|calls| - 1].epoch
  }

  lemma {:induction false} ScheduleHolds(wallet: Pubkey, bps: U16, created: U64, calls: seq<FeeCall>, read: U64)
    requires NewConfig(wallet, bps, created).Ok? && InEpochOrder(created, calls)
    requires LastEpoch(created, calls) <= read
    ensures var initial := NewConfig(wallet, bps, created).value;
            && ScheduleOk(FeeRun(initial, calls), LastEpoch(created, calls))
            && CurrentFees(FeeRun(initial, calls), read).ncnFeeBps == RequestedBefore(initial, calls, read)
  {
    if calls != [] {
      var initial := NewConfig(wallet, bps, created).value;
      var before, c := calls[..|calls| - 1], calls[|calls| - 1];
      ScheduleHolds(wallet, bps, created, before, read);
      if Updated(FeeRun(initial, before), c.bps, c.wallet, c.epoch).Ok? {
        UpdateIsDelayed(FeeRun(initial, before), LastEpoch(created, before), c.bps, c.wallet, c.epoch, read);
      } else {
        LaterStillOk(FeeRun(initial, before), LastEpoch(created, before), c.epoch);
      }
    }
  }

  lemma LaterStillOk(v: FeeView, last: U64, later: U64)
    requires ScheduleOk(v, last) && last <= later
    ensures ScheduleOk(v, later)
  {}

  /** The delayed schedule: from creation on, whatever calls were made up to and
      during epoch e, the fee read for e is the last one requested before e, and
      the total stays in (0, 10000]. For an epoch after all calls that is the
      last value requested. */
  lemma DelayedFeeSchedule(wallet: Pubkey, bps: U16, created: U64, calls: seq<FeeCall>, read: U64)
    requires NewConfig(wallet, bps, created).Ok? && InEpochOrder(created, calls)
    requires LastEpoch(created, calls) <= read
    ensures var initial := NewConfig(wallet, bps, created).value;
            var fees := CurrentFees(FeeRun(initial, calls), read);
            && fees.ncnFeeBps == RequestedBefore(initial, calls, read)
            && fees.protocolFeeBps == PROTOCOL_FEE_BPS
            && 0 < fees.TotalBps() <= MAX_FEE_BPS
  {
    ScheduleHolds(wallet, bps, created, calls, read);
  }

  /** Further calls during an epoch cannot change what is read for it. */
  lemma FeeStableWithinEpoch(wallet: Pubkey, bps: U16, created: U64, calls: seq<FeeCall>, c: FeeCall)
    requires NewConfig(wallet, bps, created).Ok? && InEpochOrder(created, calls + [c])
    ensures var initial := NewConfig(wallet, bps, created).value;
            CurrentFees(FeeRun(initial, calls + [c]), c.epoch).ncnFeeBps
              == CurrentFees(FeeRun(initial, calls), c.epoch).ncnFeeBps
  {
    var longer := calls + [c];
    assert longer[..|calls|] == calls;
    assert forall i :: 0 <= i < |calls| ==> longer[i] == calls[i];
    assert LastEpoch(created, calls) <= c.epoch by {
      if calls != [] {
        assert longer[|calls| - 1].epoch <= longer[|calls|].epoch;
      }
    }
    ScheduleHolds(wallet, bps, created, longer, c.epoch);
    ScheduleHolds(wallet, bps, created, calls, c.epoch);
  }

  class FeeConfig {
    var ncnFeeWallet: Pubkey
    var fee1: FeeSlot
    var fee2: FeeSlot

    ghost function View(): FeeView
      reads this
    {
      FeeView(ncnFeeWallet, fee1, fee2)
    }

    constructor (wallet: Pubkey, fees: FeeSlot)
      ensures View() == FeeView(wallet, fees, fees)
    {
      ncnFeeWallet := wallet;
      fee1, fee2 := fees, fees;
    }

    static method New(wallet: Pubkey, ncnFeeBps: U16, epoch: U64) returns (r: Result<FeeConfig, NcnError>)
      ensures r.Ok? ==> fresh(r.value) && NewConfig(wallet, ncnFeeBps, epoch) == Ok(r.value.View())
      ensures r.Err? ==> NewConfig(wallet, ncnFeeBps, epoch) == Err(r.error)
    {
      if wallet == DEFAULT_PUBKEY {
        return Err(DefaultNcnWallet);
      }
      if ncnFeeBps > MAX_FEE_BPS {
        return Err(FeeCapExceeded);
      }
      var config := new FeeConfig(wallet, FeeSlot(epoch, PROTOCOL_FEE_BPS, ncnFeeBps));
      var okay := config.CheckFeesOkay(epoch);
      if okay.Err? {
        return Err(okay.error);
      }
      r := Ok(config);
    }

    method GetCurrentFees(epoch: U64) returns (fees: FeeSlot)
      ensures fees == CurrentFees(View(), epoch)
    {
      if fee1.activationEpoch > epoch {
        return fee2;
      }
      if fee2.activationEpoch > epoch {
        return fee1;
      }
      fees := if fee1.activationEpoch >= fee2.activationEpoch then fee1 else fee2;
    }

    /** Which slot a write goes to. */
    method SelectUpdatable(epoch: U64) returns (first: bool)
      ensures first <==> UpdatableIsFirst(View(), epoch)
    {
      if fee1.activationEpoch > epoch {
        return true;
      }
      if fee2.activationEpoch > epoch {
        return false;
      }
      first := fee1.activationEpoch <= fee2.activationEpoch;
    }

    method SetFeesToCurrent(epoch: U64) returns (r: Result<(), NcnError>)
      modifies this
      ensures r.Ok? ==> SetToCurrent(old(View()), epoch) == Ok(View())
      ensures r.Err? ==> SetToCurrent(old(View()), epoch) == Err(r.error) && View() == old(View())
    {
      if fee1.activationEpoch > epoch || fee2.activationEpoch > epoch {
        return Err(FeeNotActive);
      }
      var cloned := GetCurrentFees(epoch);
      var first := SelectUpdatable(epoch);
      if first {
        fee1 := cloned;
      } else {
        fee2 := cloned;
      }
      r := Ok(());
    }

    method SetNcnFeeBps(bps: U16, epoch: U64) returns (r: Result<(), NcnError>)
      modifies this
      ensures r.Ok? ==> WithNcnFee(old(View()), bps, epoch) == Ok(View())
      ensures r.Err? ==> WithNcnFee(old(View()), bps, epoch) == Err(r.error) && View() == old(View())
    {
      if bps > MAX_FEE_BPS {
        return Err(FeeCapExceeded);
      }
      var first := SelectUpdatable(epoch);
      if first {
        fee1 := fee1.(ncnFeeBps := bps);
      } else {
        fee2 := fee2.(ncnFeeBps := bps);
      }
      r := Ok(());
    }

    method UpdateUpdatableEpoch(epoch: U64) returns (r: Result<(), NcnError>)
      modifies this
      ensures r.Ok? ==> Activated(old(View()), epoch) == Ok(View())
      ensures r.Err? ==> Activated(old(View()), epoch) == Err(r.error) && View() == old(View())
    {
      if epoch == U64_MAX {
        return Err(ArithmeticOverflow);
      }
      var first := SelectUpdatable(epoch);
      if first {
        fee1 := fee1.(activationEpoch := epoch + 1);
      } else {
        fee2 := fee2.(activationEpoch := epoch + 1);
      }
      r := Ok(());
    }

    method CheckFeesOkay(epoch: U64) returns (r: Result<(), NcnError>)
      ensures r == FeesOkay(View(), epoch)
    {
      var fees := GetCurrentFees(epoch);
      var total := fees.protocolFeeBps + fees.ncnFeeBps;
      if total > MAX_FEE_BPS {
        return Err(FeeCapExceeded);
      }
      if total == 0 {
        return Err(TotalFeesCannotBeZero);
      }
      r := Ok(());
    }

    method Prepare(bps: Option<U16>, wallet: Option<Pubkey>, epoch: U64) returns (r: Result<(), NcnError>)
      modifies this
      ensures r.Ok? ==> Prepared(old(View()), bps, wallet, epoch) == Ok(View())
      ensures r.Err? ==> Prepared(old(View()), bps, wallet, epoch) == Err(r.error)
    {
      var first := SelectUpdatable(epoch);
      if (if first then fee1 else fee2).activationEpoch <= epoch {
        var copied := SetFeesToCurrent(epoch);
        if copied.Err? {
          return copied;
        }
      }
      if bps.Some? {
        var priced := SetNcnFeeBps(bps.value, epoch);
        if priced.Err? {
          return priced;
        }
      }
      if wallet.Some? {
        ncnFeeWallet := wallet.value;
      }
      r := Ok(());
    }

    method UpdateFeeConfig(bps: Option<U16>, wallet: Option<Pubkey>, epoch: U64) returns (r: Result<(), NcnError>)
      modifies this
      ensures r.Ok? ==> Updated(old(View()), bps, wallet, epoch) == Ok(View())
      ensures r.Err? ==> Updated(old(View()), bps, wallet, epoch) == Err(r.error)
    {
      var prepared := Prepare(bps, wallet, epoch);
      if prepared.Err? {
        return prepared;
      }
      var activated := UpdateUpdatableEpoch(epoch);
      if activated.Err? {
        return activated;
      }
      var now := CheckFeesOkay(epoch);
      if now.Err? {
        return now;
      }
      r := CheckFeesOkay(epoch + 1);
    }
  }
}
