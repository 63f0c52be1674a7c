/**
 The vault registry (core/src/vault_registry.rs): sixteen supported mints with
 their weights and sixteen vaults. A vault's position is the key under which the
 snapshot stores its stake contributions.
 */
module VaultRegistry {
  import opened Prelude
  import opened NcnErrors

  const MAX_ENTRIES: nat := 16
  const FULL_WEIGHT_BPS: nat := 10_000

  datatype StMintEntry = StMintEntry(stMint: Pubkey, weightBps: U16)

  datatype VaultEntry = VaultEntry(vault: Pubkey, stMint: Pubkey, vaultIndex: U64, slotRegistered: U64)
  {
    predicate IsEmpty() { slotRegistered == U64_MAX }
  }

  datatype Registry = Registry(mints: seq<StMintEntry>, vaults: seq<VaultEntry>)

  function EmptyMints(): (s: seq<StMintEntry>)
    ensures |s| == MAX_ENTRIES && forall i :: 0 <= i < |s| ==> s[i] == StMintEntry(DEFAULT_PUBKEY, 0)
  {
    seq(MAX_ENTRIES, _ => StMintEntry(DEFAULT_PUBKEY, 0))
  }

  function EmptyVaults(): (s: seq<VaultEntry>)
    ensures |s| == MAX_ENTRIES
    ensures forall i :: 0 <= i < |s| ==> s[i] == VaultEntry(DEFAULT_PUBKEY, DEFAULT_PUBKEY, U64_MAX, U64_MAX)
  {
    seq(MAX_ENTRIES, _ => VaultEntry(DEFAULT_PUBKEY, DEFAULT_PUBKEY, U64_MAX, U64_MAX))
  }

  const EMPTY_REGISTRY: Registry := Registry(EmptyMints(), EmptyVaults())

  /** First entry for the mint; the default key finds the first free entry. */
  function MintIndex(mints: seq<StMintEntry>, mint: Pubkey, from: nat): (r: Option<nat>)
    requires from <= |mints|
    ensures r.Some? ==> from <= r.value < |mints| && mints[r.value].stMint == mint
    ensures r.None? ==> forall i :: from <= i < |mints| ==> mints[i].stMint != mint
    decreases |mints| - from
  {
    if from == |mints| then None
    else if mints[from].stMint == mint then Some(from)
    else MintIndex(mints, mint, from + 1)
  }

  /** First entry whose mint is the default key, which is where vaults go. */
  function FreeVaultIndex(vaults: seq<VaultEntry>, from: nat): (r: Option<nat>)
    requires from <= |vaults|
    ensures r.Some? ==> from <= r.value < |vaults| && vaults[r.value].stMint == DEFAULT_PUBKEY
    decreases |vaults| - from
  {
    if from == |vaults| then None
    else if vaults[from].stMint == DEFAULT_PUBKEY then Some(from)
    else FreeVaultIndex(vaults, from + 1)
  }

  predicate VaultListed(vaults: seq<VaultEntry>, vault: Pubkey) {
    exists i :: 0 <= i < |vaults| && vaults[i].vault == vault
  }

  function VaultSlotFrom(vaults: seq<VaultEntry>, vault: Pubkey, from: nat): (r: Option<nat>)
    requires from <= |vaults|
    ensures r.Some? ==> from <= r.value < |vaults| && !vaults[r.value].IsEmpty() && vaults[r.value].vault == vault
    ensures r.None? ==> forall i :: from <= i < |vaults| ==> vaults[i].IsEmpty() || vaults[i].vault != vault
    decreases |vaults| - from
  {
    if from == |vaults| then None
    else if !vaults[from].IsEmpty() && vaults[from].vault == vault then Some(from)
    else VaultSlotFrom(vaults, vault, from + 1)
  }

  function VaultSlot(reg: Registry, vault: Pubkey): (r: Result<nat, NcnError>)
    ensures r.Ok? ==> r.value < |reg.vaults|
  {
    match VaultSlotFrom(reg.vaults, vault, 0)
    case None => Err(VaultNotInRegistry)
    case Some(i) => Ok(i)
  }

  function VaultWeightBps(reg: Registry, vault: Pubkey): Result<U16, NcnError> {
    var slot :- VaultSlot(reg, vault);
    match MintIndex(reg.mints, reg.vaults[slot].stMint, 0)
    case None => Err(MintEntryNotFound)
    case Some(i) => Ok(reg.mints[i].weightBps)
  }

  function MintRegistered(reg: Registry, mint: Pubkey, weightBps: U16): Result<Registry, NcnError> {
    if weightBps == 0 || weightBps > FULL_WEIGHT_BPS then Err(InvalidWeightBps)
    else if MintIndex(reg.mints, mint, 0).Some? then Err(MintInTable)
    else
      match MintIndex(reg.mints, DEFAULT_PUBKEY, 0)
      case None => Err(VaultRegistryListFull)
      case Some(i) => Ok(reg.(mints := reg.mints[i := StMintEntry(mint, weightBps)]))
  }

  function VaultRegistered(reg: Registry, vault: Pubkey, mint: Pubkey, vaultIndex: U64, slot: U64)
    : Result<Registry, NcnError>
  {
    if VaultListed(reg.vaults, vault) then Ok(reg)
    else
      match FreeVaultIndex(reg.vaults, 0)
      case None => Err(VaultRegistryListFull)
      case Some(i) => Ok(reg.(vaults := reg.vaults[i := VaultEntry(vault, mint, vaultIndex, slot)]))
  }

  /** Registration as the instruction performs it: the mint must be listed. */
  function SupportedVaultRegistered(reg: Registry, vault: Pubkey, mint: Pubkey, vaultIndex: U64, slot: U64)
    : Result<Registry, NcnError>
  {
    if MintIndex(reg.mints, mint, 0).None? then Err(MintNotSupported)
    else VaultRegistered(reg, vault, mint, vaultIndex, slot)
  }

  // ----- what every registration keeps -----

  /** A vault that can be found and whose mint can carry a weight. */
  predicate Weighable(reg: Registry, slot: nat) {
    slot < |reg.vaults| && !reg.vaults[slot].IsEmpty() && reg.vaults[slot].stMint != DEFAULT_PUBKEY
  }

  ghost predicate RegistryOk(reg: Registry) {
    && |reg.mints| == MAX_ENTRIES && |reg.vaults| == MAX_ENTRIES
    && (forall i :: 0 <= i < |reg.mints| ==> reg.mints[i].weightBps <= FULL_WEIGHT_BPS)
    && (forall i :: 0 <= i < |reg.mints| && reg.mints[i].stMint == DEFAULT_PUBKEY ==> reg.mints[i].weightBps == 0)
    && (forall i, j :: 0 <= i < j < |reg.vaults| && !reg.vaults[i].IsEmpty() && !reg.vaults[j].IsEmpty() ==>
          reg.vaults[i].vault != reg.vaults[j].vault)
  }

  /** Entries that can carry weight are never moved or overwritten. */
  ghost predicate KeepsWeighable(before: Registry, after: Registry) {
    forall s: nat :: Weighable(before, s) ==> Weighable(after, s) && after.vaults[s] == before.vaults[s]
  }

  lemma MintRegistrationKeeps(reg: Registry, mint: Pubkey, weightBps: U16)
    requires RegistryOk(reg) && MintRegistered(reg, mint, weightBps).Ok?
    ensures RegistryOk(MintRegistered(reg, mint, weightBps).value)
    ensures MintRegistered(reg, mint, weightBps).value.vaults == reg.vaults
    ensures mint != DEFAULT_PUBKEY
    ensures forall m: Pubkey, i: nat :: m != DEFAULT_PUBKEY && MintIndex(reg.mints, m, 0) == Some(i) ==>
              MintIndex(MintRegistered(reg, mint, weightBps).value.mints, m, 0) == Some(i)
              && MintRegistered(reg, mint, weightBps).value.mints[i] == reg.mints[i]
  {
    var i := MintIndex(reg.mints, DEFAULT_PUBKEY, 0).value;
    var entry := StMintEntry(mint, weightBps);
    forall m: Pubkey, k: nat | m != DEFAULT_PUBKEY && MintIndex(reg.mints, m, 0) == Some(k)
      ensures MintIndex(reg.mints[i := entry], m, 0) == Some(k)
    {
      MintIndexSurvives(reg.mints, i, entry, m, 0);
    }
  }

  lemma {:induction false} MintIndexSurvives(mints: seq<StMintEntry>, i: nat, entry: StMintEntry, m: Pubkey, from: nat)
    requires i < |mints| && from <= |mints|
    requires mints[i].stMint != m && entry.stMint != m
    ensures MintIndex(mints[i := entry], m, from) == MintIndex(mints, m, from)
    decreases |mints| - from
  {
    if from < |mints| {
      MintIndexSurvives(mints, i, entry, m, from + 1);
    }
  }

  lemma VaultRegistrationKeeps(reg: Registry, vault: Pubkey, mint: Pubkey, vaultIndex: U64, slot: U64)
    requires RegistryOk(reg) && VaultRegistered(reg, vault, mint, vaultIndex, slot).Ok?
    ensures RegistryOk(VaultRegistered(reg, vault, mint, vaultIndex, slot).value)
    ensures KeepsWeighable(reg, VaultRegistered(reg, vault, mint, vaultIndex, slot).value)
  {
    if !VaultListed(reg.vaults, vault) {
      var i := FreeVaultIndex(reg.vaults, 0).value;
      assert forall k :: 0 <= k < |reg.vaults| ==> reg.vaults[k].vault != vault;
    }
  }

  /** A vault just registered is found, where it was put, unless it was registered
      at the one slot that marks an empty entry. */
  lemma RegisteredVaultIsFound(reg: Registry, vault: Pubkey, mint: Pubkey, vaultIndex: U64, slot: U64)
    requires RegistryOk(reg) && !VaultListed(reg.vaults, vault)
    requires VaultRegistered(reg, vault, mint, vaultIndex, slot).Ok?
    ensures FreeVaultIndex(reg.vaults, 0).Some?
    ensures var after := VaultRegistered(reg, vault, mint, vaultIndex, slot).value;
            VaultSlot(after, vault) == (if slot == 0xffff_ffff_ffff_ffff then Err(VaultNotInRegistry)
                                        else Ok(FreeVaultIndex(reg.vaults, 0).value))
  {
    var i := FreeVaultIndex(reg.vaults, 0).value;
    var after := VaultRegistered(reg, vault, mint, vaultIndex, slot).value;
    forall k | 0 <= k < |reg.vaults| && k != i ensures after.vaults[k].vault != vault {
      assert after.vaults[k] == reg.vaults[k];
    }
    var found := VaultSlotFrom(after.vaults, vault, 0);
    assert after.vaults[i].vault == vault && (after.vaults[i].IsEmpty() <==> slot == U64_MAX);
    if found.Some? {
      assert found.value == i;
    }
  }

  /** Only a vault under a supported, non-default mint has any weight. */
  lemma WeightNeedsWeighable(reg: Registry, vault: Pubkey)
    requires RegistryOk(reg) && VaultWeightBps(reg, vault).Ok?
    ensures VaultSlot(reg, vault).Ok? && VaultSlot(reg, vault).value < MAX_ENTRIES
    ensures VaultWeightBps(reg, vault).value <= FULL_WEIGHT_BPS
    ensures !Weighable(reg, VaultSlot(reg, vault).value) ==> VaultWeightBps(reg, vault).value == 0
  {}

  class VaultRegistryAccount {
    var stMintList: array<StMintEntry>
    var vaultList: array<VaultEntry>

    ghost predicate Valid()
      reads this
    {
      stMintList.Length == MAX_ENTRIES && vaultList.Length == MAX_ENTRIES
    }

    ghost function View(): Registry
      reads this, stMintList, vaultList
    {
      Registry(stMintList[..], vaultList[..])
    }

    constructor ()
      ensures Valid() && fresh(stMintList) && fresh(vaultList)
      ensures View() == EMPTY_REGISTRY
    {
      stMintList := new StMintEntry[MAX_ENTRIES](_ => StMintEntry(DEFAULT_PUBKEY, 0));
      vaultList := new VaultEntry[MAX_ENTRIES](_ => VaultEntry(DEFAULT_PUBKEY, DEFAULT_PUBKEY, U64_MAX, U64_MAX));
      new;
      assert stMintList[..] == EmptyMints();
      assert vaultList[..] == EmptyVaults();
    }

    method FindMint(mint: Pubkey) returns (r: Option<nat>)
      ensures r == MintIndex(stMintList[..], mint, 0)
    {
      var i := 0;
      while i < stMintList.Length
        invariant 0 <= i <= stMintList.Length
        invariant MintIndex(stMintList[..], mint, 0) == MintIndex(stMintList[..], mint, i)
      {
        if stMintList[i].stMint == mint {
          return Some(i);
        }
        i := i + 1;
      }
      r := None;
    }

    method RegisterStMint(mint: Pubkey, weightBps: U16) returns (r: Result<(), NcnError>)
      requires Valid()
      modifies stMintList
      ensures Valid()
      ensures r.Ok? ==> MintRegistered(old(View()), mint, weightBps) == Ok(View())
      ensures r.Err? ==> MintRegistered(old(View()), mint, weightBps) == Err(r.error) && View() == old(View())
    {
      if weightBps == 0 || weightBps > FULL_WEIGHT_BPS {
        return Err(InvalidWeightBps);
      }
      var present := FindMint(mint);
      if present.Some? {
        return Err(MintInTable);
      }
      var free := FindMint(DEFAULT_PUBKEY);
      if free.None? {
        return Err(VaultRegistryListFull);
      }
      stMintList[free.value] := StMintEntry(mint, weightBps);
      r := Ok(());
    }

    method RegisterVault(vault: Pubkey, mint: Pubkey, vaultIndex: U64, slot: U64) returns (r: Result<(), NcnError>)
      requires Valid()
      modifies vaultList
      ensures Valid()
      ensures r.Ok? ==> VaultRegistered(old(View()), vault, mint, vaultIndex, slot) == Ok(View())
      ensures r.Err? ==> VaultRegistered(old(View()), vault, mint, vaultIndex, slot) == Err(r.error)
                         && View() == old(View())
    {
      var i := 0;
      while i < vaultList.Length
        invariant 0 <= i <= vaultList.Length
        invariant forall k :: 0 <= k < i ==> vaultList[k].vault != vault
      {
        if vaultList[i].vault == vault {
          assert View().vaults[i].vault == vault;
          return Ok(());
        }
        i := i + 1;
      }
      i := 0;
      while i < vaultList.Length && vaultList[i].stMint != DEFAULT_PUBKEY
        invariant 0 <= i <= vaultList.Length
        invariant FreeVaultIndex(vaultList[..], 0) == FreeVaultIndex(vaultList[..], i)
      {
        i := i + 1;
      }
      if i == vaultList.Length {
        return Err(VaultRegistryListFull);
      }
      vaultList[i] := VaultEntry(vault, mint, vaultIndex, slot);
      r := Ok(());
    }

    method GetVaultRegistrySlot(vault: Pubkey) returns (r: Result<nat, NcnError>)
      ensures r == VaultSlot(View(), vault)
    {
      var i := 0;
      while i < vaultList.Length
        invariant 0 <= i <= vaultList.Length
        invariant VaultSlotFrom(vaultList[..], vault, 0) == VaultSlotFrom(vaultList[..], vault, i)
      {
        if !vaultList[i].IsEmpty() && vaultList[i].vault == vault {
          return Ok(i);
        }
        i := i + 1;
      }
      r := Err(VaultNotInRegistry);
    }

    method GetVaultWeightBps(vault: Pubkey) returns (r: Result<U16, NcnError>)
      ensures r == VaultWeightBps(View(), vault)
    {
      var slot := GetVaultRegistrySlot(vault);
      if slot.Err? {
        return Err(slot.error);
      }
      var mint := FindMint(vaultList[slot.value].stMint);
      if mint.None? {
        return Err(MintEntryNotFound);
      }
      r := Ok(stMintList[mint.value].weightBps);
    }
  }
}
