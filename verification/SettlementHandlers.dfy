/**
 The settlement handlers over the program's accounts (settlement_program/src),
 proved against the transitions in `Settlement`. A handler that fails aborts its
 transaction.
 */
module SettlementHandlers {
  import opened Prelude
  import opened NcnErrors
  import opened SettlementErrors
  import opened SnapshotAccount
  import opened Certificate
  import opened Payload
  import opened Buffer
  import opened BufferAccount
  import opened Settlement

  class SettlementAccounts {
    var states: map<Pubkey, GkState>
    var buffers: map<Pubkey, Bytes>
    /** Other programs' accounts, read only. */
    const cluster: Cluster

    ghost function View(): World
      reads this
    {
      World(states, buffers, cluster)
    }

    constructor (others: Cluster)
      ensures View() == World(map[], map[], others)
    {
      states, buffers, cluster := map[], map[], others;
    }

    method ProcessInitializeState(chain: Chain, ncn: Pubkey, appId: Bytes32, sim: Bytes32, env: Bytes32)
      returns (r: Result<(), SettlementError>)
      modifies this
      ensures r.Ok? ==> StateInitialized(chain, old(View()), ncn, appId, sim, env) == Ok(View())
      ensures r.Err? ==> StateInitialized(chain, old(View()), ncn, appId, sim, env) == Err(r.error) && View() == old(View())
    {
      var key := chain.statePda(ncn, appId);
      if key in states {
        return Err(AccountAlreadyInitialized);
      }
      states := states[key := GkState(ncn, appId, ZERO32, 0, sim, env)];
      r := Ok(());
    }

    /** `account` is the account at the address the caller passes, `key`. */
    method ProcessWriteBuffer(chain: Chain, state: Pubkey, key: Pubkey, index: U64, args: WriteArgs, payer: Pubkey,
                              account: BufferAccount) returns (r: Result<(), SettlementError>)
      requires account.Valid() && account.View() == BufferAt(View(), key)
      modifies this, account, account.data
      ensures r.Ok? ==> BufferWritten(chain, old(View()), state, key, index, args, payer) == Ok(View())
                        && account.View() == BufferAt(View(), key)
      ensures r.Err? ==> BufferWritten(chain, old(View()), state, key, index, args, payer) == Err(r.error)
                         && View() == old(View())
    {
      if state !in states {
        return Err(InvalidAccountOwner);
      }
      if index < states[state].transitionCount {
        return Err(InvalidTransitionIndex);
      }
      if key != chain.bufferPda(state, index) {
        return Err(BufferKeyMismatch);
      }
      r := account.ProcessWriteBuffer(args, payer);
      if r.Ok? {
        buffers := buffers[key := account.data[..]];
      }
    }

    method ProcessCloseBuffer(chain: Chain, state: Pubkey, key: Pubkey, index: U64, payer: Pubkey, account: BufferAccount)
      returns (r: Result<(), SettlementError>)
      requires account.Valid() && account.View() == BufferAt(View(), key)
      modifies this, account
      ensures r.Ok? ==> BufferClosed(chain, old(View()), state, key, index, payer) == Ok(View())
                        && account.View() == BufferAt(View(), key) == None
      ensures r.Err? ==> BufferClosed(chain, old(View()), state, key, index, payer) == Err(r.error) && View() == old(View())
    {
      if state !in states || (!account.owned && key !in states) {
        return Err(InvalidAccountOwner);
      }
      if key != chain.bufferPda(state, index) {
        return Err(BufferKeyMismatch);
      }
      if index >= states[state].transitionCount {
        return Err(BufferNotSettled);
      }
      if !account.owned {
        return Err(InvalidBufferBounds);
      }
      var trailer := account.ReadBufferTrailer();
      if trailer.Err? {
        return Err(trailer.error);
      }
      if trailer.value.0 != payer {
        return Err(InvalidBufferPayer);
      }
      account.Reclaim();
      buffers := buffers - {key};
      r := Ok(());
    }

    method VerifyStoryMeta(chain: Chain, state: Pubkey, index: U64, event: Bytes, buffer: Option<Pubkey>)
      returns (r: Result<(), SettlementError>)
      ensures r == StoryMetaVerified(chain, View(), state, index, event, buffer)
    {
      var decoded := DecodeStoryMeta(event);
      if decoded.None? {
        return Err(MalformedStoryMeta);
      }
      if buffer.None? {
        return Err(MissingBufferAccount);
      }
      var meta, key := decoded.value, buffer.value;
      if key !in buffers {
        return Err(if key in states then BufferKeyMismatch else InvalidAccountOwner);
      }
      if key != chain.bufferPda(state, index) || meta.buffer != key {
        return Err(BufferKeyMismatch);
      }
      var data := buffers[key];
      var contentLen := ContentLen(|data|);
      if contentLen.Err? {
        return Err(contentLen.error);
      }
      if meta.len > contentLen.value {
        return Err(InvalidBufferBounds);
      }
      if chain.sha256(data[..meta.len]) != meta.storySha256 {
        return Err(BufferHashMismatch);
      }
      r := Ok(());
    }

    /** The checks of one event. */
    method VerifyEvent(chain: Chain, state: Pubkey, index: U64, event: StateUpdate, buffer: Option<Pubkey>)
      returns (r: Result<(), SettlementError>)
      requires event.Event?
      ensures r == EventVerified(chain, View(), state, index, event, buffer)
    {
      r := Ok(());
      if |event.payload| + 8 > MAX_EVENT_CPI_DATA_LEN {
        r := Err(EventTooLarge);
      } else if event.discriminant == STORY_META_DISCRIMINANT {
        r := VerifyStoryMeta(chain, state, index, event.payload, buffer);
      }
    }

    /** One pass over the updates, all checks before any effect. */
    method ValidateDiff(chain: Chain, state: Pubkey, index: U64, updates: seq<StateUpdate>, buffer: Option<Pubkey>)
      returns (r: Result<Bytes32, SettlementError>)
      ensures r == Validated(chain, View(), state, index, updates, buffer)
    {
      ghost var w := View();
      var commitmentRoot: Option<Bytes32> := None;
      for i := 0 to |updates|
        invariant ValidatedPrefix(chain, w, state, index, updates, buffer, i) == Ok(commitmentRoot)
      {
        PrefixFails(chain, w, state, index, updates, buffer, i + 1, |updates|);
        match updates[i] {
          case Store(data) =>
            if commitmentRoot.Some? {
              return Err(MultipleStore);
            }
            commitmentRoot := Some(data);
          case Event(_, _) =>
            var verified := VerifyEvent(chain, state, index, updates[i], buffer);
            if verified.Err? {
              return Err(verified.error);
            }
        }
      }
      r := if commitmentRoot.None? then Err(MissingStore) else Ok(commitmentRoot.value);
    }

    /** The payload must name this instruction, this state and its next
        transition; the result is what its digest is taken over. */
    method CheckBinding(state: Pubkey, payload: SettlementPayload) returns (r: Result<Bytes, SettlementError>)
      ensures r == PayloadBound(View(), state, payload)
    {
      if state !in states {
        return Err(InvalidAccountOwner);
      }
      if payload.ixDiscriminator != SETTLE_DISCRIMINATOR {
        return Err(DigestMismatch);
      }
      if payload.statePda != state {
        return Err(InvalidStatePda);
      }
      if payload.transitionIndex != states[state].transitionCount {
        return Err(InvalidTransitionIndex);
      }
      var bytes := Serialized(payload);
      r := if bytes.None? then Err(SerializationError) else Ok(bytes.value);
    }

    /** `snapshot` is the snapshot account of the NCN passed in, null until it
        has its full size. */
    method ProcessSettle(chain: Chain, state: Pubkey, buffer: Option<Pubkey>, ncn: Pubkey, snapshot: Snapshot?,
                         epochLength: U64, payload: SettlementPayload, proof: Proof)
      returns (r: Result<(), SettlementError>, events: seq<Bytes>)
      requires snapshot == null <==> LoadNcn(cluster, ncn).Err?
      requires snapshot != null ==> snapshot.Valid() && LoadNcn(cluster, ncn) == Ok(snapshot.View())
      modifies this
      ensures r.Ok? ==> Settled(chain, old(View()), state, buffer, ncn, epochLength, payload, proof) == Ok(View())
                        && AllEmitted(chain, payload.updates) == Ok(events)
      ensures r.Err? ==> Settled(chain, old(View()), state, buffer, ncn, epochLength, payload, proof) == Err(r.error)
                         && View() == old(View())
    {
      var bytes := CheckBinding(state, payload);
      if bytes.Err? {
        return Err(bytes.error), [];
      }
      var certified := CertifyPayload(chain, ncn, snapshot, epochLength, bytes.value, proof);
      if certified.Err? {
        return certified, [];
      }
      r, events := ApplyDiff(chain, state, buffer, payload);
    }

    method CertifyPayload(chain: Chain, ncn: Pubkey, snapshot: Snapshot?, epochLength: U64, bytes: Bytes, proof: Proof)
      returns (r: Result<(), SettlementError>)
      requires snapshot == null <==> LoadNcn(cluster, ncn).Err?
      requires snapshot != null ==> snapshot.Valid() && LoadNcn(cluster, ncn) == Ok(snapshot.View())
      ensures r == PayloadCertified(chain, cluster, ncn, epochLength, bytes, proof)
    {
      var cert := Certificate(chain.sha256(bytes), proof.aggregatedG2, proof.aggregatedSignature, proof.bitmap,
                              proof.expectedGeneration);
      var verdict := CheckCertificate(chain, ncn, snapshot, epochLength, cert);
      r := if verdict.Err? then Err(CertificateRejected(verdict.error)) else Ok(());
    }

    /** Validate the whole diff, send its events out, write the one commitment. */
    method ApplyDiff(chain: Chain, state: Pubkey, buffer: Option<Pubkey>, payload: SettlementPayload)
      returns (r: Result<(), SettlementError>, events: seq<Bytes>)
      requires state in states
      modifies this
      ensures r.Ok? ==> DiffApplied(chain, old(View()), state, buffer, payload) == Ok(View())
                        && AllEmitted(chain, payload.updates) == Ok(events)
      ensures r.Err? ==> DiffApplied(chain, old(View()), state, buffer, payload) == Err(r.error) && View() == old(View())
    {
      var root := ValidateDiff(chain, state, payload.transitionIndex, payload.updates, buffer);
      if root.Err? {
        return Err(root.error), [];
      }
      var emitted := EmitEvents(chain, payload.updates);
      if emitted.Err? {
        return Err(emitted.error), [];
      }
      var count := states[state].transitionCount;
      if count == U64_MAX {
        return Err(SettlementError.ArithmeticOverflow), [];
      }
      states := states[state := states[state].(commitmentRoot := root.value, transitionCount := count + 1)];
      r, events := Ok(()), emitted.value;
    }

    /** The inline call into the NCN program's verification. */
    method CheckCertificate(chain: Chain, ncn: Pubkey, snapshot: Snapshot?, epochLength: U64, cert: Certificate)
      returns (r: Result<(), NcnError>)
      requires snapshot == null <==> LoadNcn(cluster, ncn).Err?
      requires snapshot != null ==> snapshot.Valid() && LoadNcn(cluster, ncn) == Ok(snapshot.View())
      ensures r == NcnVerdict(chain, cluster, ncn, epochLength, cert)
    {
      if snapshot == null {
        var missing := LoadNcn(cluster, ncn);
        return Err(missing.error);
      }
      var thresholdBps, validSlots := cluster.ncns[ncn].consensusThresholdBps, cluster.ncns[ncn].validSlotsAfterConsensus;
      r := VerifyCertificate(chain.SuiteFor(ncn), snapshot, VerifyConfig(thresholdBps, validSlots, epochLength),
                             cluster.clock, cert);
    }
  }

  /** Once validation of a prefix has failed, so has that of the whole. */
  lemma {:induction false} PrefixFails(chain: Chain, w: World, state: Pubkey, index: U64, updates: seq<StateUpdate>,
                                       buffer: Option<Pubkey>, m: nat, n: nat)
    requires m <= n <= |updates|
    ensures var before := ValidatedPrefix(chain, w, state, index, updates, buffer, m);
            before.Err? ==> ValidatedPrefix(chain, w, state, index, updates, buffer, n) == before
  {
    if m < n {
      PrefixFails(chain, w, state, index, updates, buffer, m, n - 1);
    }
  }

  lemma {:induction false} EmissionFails(chain: Chain, updates: seq<StateUpdate>, m: nat, n: nat)
    requires m <= n <= |updates| && EmittedPrefix(chain, updates, m).Err?
    ensures EmittedPrefix(chain, updates, n) == EmittedPrefix(chain, updates, m)
  {
    if m < n {
      EmissionFails(chain, updates, m, n - 1);
    }
  }

  /** The second pass: one call of the program to itself for every event, in
      order; the records are what the calls leave behind. */
  method EmitEvents(chain: Chain, updates: seq<StateUpdate>) returns (r: Result<seq<Bytes>, SettlementError>)
    ensures r == AllEmitted(chain, updates)
    ensures r.Ok? <==> AllEmittable(updates)
  {
    EmittedPrefixIff(chain, updates, |updates|);
    var records: seq<Bytes> := [];
    for i := 0 to |updates|
      invariant EmittedPrefix(chain, updates, i) == Ok(records)
    {
      if updates[i].Event? {
        var data := EventCpiData(updates[i]);
        var called := Dispatched(chain.eventAuthority, AccountMeta(chain.eventAuthority, true), data);
        if called.Err? {
          EmissionFails(chain, updates, i + 1, |updates|);
          return Err(SelfCpiFailed(called.error));
        }
        records := records + [data];
      }
    }
    r := Ok(records);
  }
}
