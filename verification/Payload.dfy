/**
 The signable settlement payload (settlement_core/src/payload.rs) and its borsh
 wire form: integers little-endian, one tag byte per update, 32-bit lengths
 before variable parts (Borsh specification).
 */
module Payload {
  import opened Prelude
  import opened LittleEndian

  datatype StateUpdate =
    | Store(data: Bytes32)
    | Event(discriminant: Bytes8, payload: Bytes)

  datatype SettlementPayload = SettlementPayload(
    transitionIndex: U64,
    statePda: Bytes32,
    ixDiscriminator: Bytes8,
    updates: seq<StateUpdate>)

  datatype StoryMeta = StoryMeta(storySha256: Bytes32, buffer: Pubkey, len: U32)

  // ----- writing -----

  function EncodeUpdate(u: StateUpdate): Bytes {
    match u
    case Store(data) => [0] + data
    case Event(discriminant, payload) => [1] + (discriminant + (ToLe(|payload|, 4) + payload))
  }

  function EncodeUpdates(us: seq<StateUpdate>): Bytes {
    if us == [] then [] else EncodeUpdate(us[0]) + EncodeUpdates(us[1..])
  }

  function EncodePayload(p: SettlementPayload): Bytes {
    ToLe(p.transitionIndex, 8) + (p.statePda + (p.ixDiscriminator + (ToLe(|p.updates|, 4) + EncodeUpdates(p.updates))))
  }

  function EncodeStoryMeta(m: StoryMeta): Bytes {
    m.storySha256 + (m.buffer + ToLe(m.len, 4))
  }

  predicate UpdateEncodable(u: StateUpdate) {
    u.Event? ==> |u.payload| <= U32_MAX
  }

  /** Every length fits its 32-bit prefix. */
  predicate Encodable(p: SettlementPayload) {
    |p.updates| <= U32_MAX && forall i :: 0 <= i < |p.updates| ==> UpdateEncodable(p.updates[i])
  }

  /** Serialization fails on a length that does not fit. */
  function Serialized(p: SettlementPayload): Option<Bytes> {
    if Encodable(p) then Some(EncodePayload(p)) else None
  }

  // ----- reading -----

  datatype Parsed<+T> = Fail | Got(value: T, rest: Bytes)

  function ReadBytes(b: Bytes, n: nat): (r: Parsed<Bytes>)
    ensures r.Got? ==> |r.value| == n && b == r.value + r.rest
  {
    if |b| < n then Fail else Got(b[..n], b[n..])
  }

  function ReadLe(b: Bytes, width: nat): (r: Parsed<nat>)
    ensures r.Got? ==> r.value < Pow256(width) && b == ToLe(r.value, width) + r.rest
  {
    match ReadBytes(b, width)
    case Fail => Fail
    case Got(le, rest) =>
      FromLeBound(le);
      LeCanonical(le);
      Got(FromLe(le), rest)
  }

  function DecodeUpdate(b: Bytes): (r: Parsed<StateUpdate>)
    ensures r.Got? ==> UpdateEncodable(r.value) && b == EncodeUpdate(r.value) + r.rest
  {
    if b == [] then Fail
    else if b[0] == 0 then
      match ReadBytes(b[1..], 32)
      case Fail => Fail
      case Got(data, rest) =>
        assert b == [0] + b[1..];
        assert [0] + (data + rest) == ([0] + data) + rest;
        Got(Store(data), rest)
    else if b[0] == 1 then
      match ReadBytes(b[1..], 8)
      case Fail => Fail
      case Got(discriminant, afterTag) =>
        match ReadLe(afterTag, 4)
        case Fail => Fail
        case Got(len, afterLen) =>
          match ReadBytes(afterLen, len)
          case Fail => Fail
          case Got(payload, rest) =>
            Widths();
            EventLayout(b, discriminant, ToLe(len, 4), payload, rest);
            Got(Event(discriminant, payload), rest)
    else Fail
  }

  lemma EventLayout(b: Bytes, discriminant: Bytes, len: Bytes, payload: Bytes, rest: Bytes)
    requires b != [] && b[0] == 1 && b[1..] == discriminant + (len + (payload + rest))
    ensures b == [1] + (discriminant + (len + payload)) + rest
  {
    assert b == [1] + b[1..];
  }

  lemma EncodeCons(first: StateUpdate, others: seq<StateUpdate>, rest: Bytes)
    ensures EncodeUpdates([first] + others) + rest == EncodeUpdate(first) + (EncodeUpdates(others) + rest)
  {
    assert ([first] + others)[1..] == others;
    assert EncodeUpdate(first) + (EncodeUpdates(others) + rest) == (EncodeUpdate(first) + EncodeUpdates(others)) + rest;
  }

  function DecodeUpdates(b: Bytes, n: nat): (r: Parsed<seq<StateUpdate>>)
    ensures r.Got? ==>
              && |r.value| == n
              && (forall i :: 0 <= i < n ==> UpdateEncodable(r.value[i]))
              && b == EncodeUpdates(r.value) + r.rest
  {
    if n == 0 then Got([], b)
    else
      match DecodeUpdate(b)
      case Fail => Fail
      case Got(first, afterFirst) =>
        match DecodeUpdates(afterFirst, n - 1)
        case Fail => Fail
        case Got(others, rest) =>
          EncodeCons(first, others, rest);
          Got([first] + others, rest)
  }

  /** Reads a payload that takes up all the bytes. */
  function DecodePayload(b: Bytes): (r: Option<SettlementPayload>)
    ensures r.Some? ==> Encodable(r.value) && EncodePayload(r.value) == b
  {
    match ReadLe(b, 8)
    case Fail => None
    case Got(index, afterIndex) =>
      match ReadBytes(afterIndex, 32)
      case Fail => None
      case Got(state, afterState) =>
        match ReadBytes(afterState, 8)
        case Fail => None
        case Got(ix, afterIx) =>
          match ReadLe(afterIx, 4)
          case Fail => None
          case Got(count, afterCount) =>
            match DecodeUpdates(afterCount, count)
            case Fail => None
            case Got(updates, rest) =>
              Widths();
              if rest != [] then None
              else
                assert EncodeUpdates(updates) + [] == EncodeUpdates(updates);
                Some(SettlementPayload(index, state, ix, updates))
  }

  function DecodeStoryMeta(b: Bytes): (r: Option<StoryMeta>)
    ensures r.Some? ==> EncodeStoryMeta(r.value) == b
  {
    match ReadBytes(b, 32)
    case Fail => None
    case Got(sha, afterSha) =>
      match ReadBytes(afterSha, 32)
      case Fail => None
      case Got(buffer, afterBuffer) =>
        match ReadLe(afterBuffer, 4)
        case Fail => None
        case Got(len, rest) =>
          Widths();
          if rest != [] then None
          else
            assert ToLe(len, 4) + [] == ToLe(len, 4);
            Some(StoryMeta(sha, buffer, len))
  }

  // ----- round trips -----

  lemma ReadsBack(head: Bytes, rest: Bytes)
    ensures ReadBytes(head + rest, |head|) == Got(head, rest)
  {}

  lemma ReadsBackLe(x: nat, width: nat, rest: Bytes)
    requires x < Pow256(width)
    ensures ReadLe(ToLe(x, width) + rest, width) == Got(x, rest)
  {
    ReadsBack(ToLe(x, width), rest);
    LeRoundTrip(x, width);
  }

  lemma UpdateRoundTrip(u: StateUpdate, rest: Bytes)
    requires UpdateEncodable(u)
    ensures DecodeUpdate(EncodeUpdate(u) + rest) == Got(u, rest)
  {
    match u
    case Store(data) =>
      assert (EncodeUpdate(u) + rest)[1..] == data + rest;
      ReadsBack(data, rest);
    case Event(discriminant, payload) =>
      EventRoundTrip(discriminant, payload, rest);
  }

  lemma EventRoundTrip(discriminant: Bytes8, payload: Bytes, rest: Bytes)
    requires |payload| <= U32_MAX
    ensures DecodeUpdate(EncodeUpdate(Event(discriminant, payload)) + rest) == Got(Event(discriminant, payload), rest)
  {
    var b := EncodeUpdate(Event(discriminant, payload)) + rest;
    var afterLen := payload + rest;
    var afterTag := ToLe(|payload|, 4) + afterLen;
    TaggedTail(discriminant, ToLe(|payload|, 4), payload, rest);
    assert b[0] == 1 && b[1..] == discriminant + afterTag;
    ReadsBack(discriminant, afterTag);
    Widths();
    ReadsBackLe(|payload|, 4, afterLen);
    ReadsBack(payload, rest);
  }

  lemma TaggedTail(a: Bytes, b: Bytes, c: Bytes, rest: Bytes)
    ensures ([1] + (a + (b + c)) + rest)[1..] == a + (b + (c + rest))
  {}

  lemma {:induction false} UpdatesRoundTrip(us: seq<StateUpdate>, rest: Bytes)
    requires forall i :: 0 <= i < |us| ==> UpdateEncodable(us[i])
    ensures DecodeUpdates(EncodeUpdates(us) + rest, |us|) == Got(us, rest)
  {
    if us == [] {
      assert EncodeUpdates(us) + rest == rest;
    } else {
      assert us == [us[0]] + us[1..];
      EncodeCons(us[0], us[1..], rest);
      UpdateRoundTrip(us[0], EncodeUpdates(us[1..]) + rest);
      UpdatesRoundTrip(us[1..], rest);
    }
  }

  /** Decoding undoes encoding. */
  lemma PayloadRoundTrip(p: SettlementPayload)
    requires Encodable(p)
    ensures DecodePayload(EncodePayload(p)) == Some(p)
  {
    var updates := EncodeUpdates(p.updates);
    var afterIx := ToLe(|p.updates|, 4) + updates;
    var afterState := p.ixDiscriminator + afterIx;
    var afterIndex := p.statePda + afterState;
    Widths();
    ReadsBackLe(p.transitionIndex, 8, afterIndex);
    ReadsBack(p.statePda, afterState);
    ReadsBack(p.ixDiscriminator, afterIx);
    ReadsBackLe(|p.updates|, 4, updates);
    UpdatesRoundTrip(p.updates, []);
    assert updates + [] == updates;
  }

  lemma StoryMetaRoundTrip(m: StoryMeta)
    ensures DecodeStoryMeta(EncodeStoryMeta(m)) == Some(m)
    ensures |EncodeStoryMeta(m)| == 68
  {
    var afterBuffer := ToLe(m.len, 4);
    ReadsBack(m.storySha256, m.buffer + afterBuffer);
    ReadsBack(m.buffer, afterBuffer);
    Widths();
    ReadsBackLe(m.len, 4, []);
    assert afterBuffer + [] == afterBuffer;
  }

  /** Bytes are accepted iff they are the encoding of some encodable payload,
      and then of exactly one. */
  lemma AcceptedIffEncoding(b: Bytes)
    ensures DecodePayload(b).Some? <==> exists p :: Encodable(p) && EncodePayload(p) == b
    ensures forall p :: Encodable(p) && EncodePayload(p) == b ==> DecodePayload(b) == Some(p)
  {
    forall p | Encodable(p) && EncodePayload(p) == b ensures DecodePayload(b) == Some(p) {
      PayloadRoundTrip(p);
    }
    if DecodePayload(b).Some? {
      var p := DecodePayload(b).value;
      assert Encodable(p) && EncodePayload(p) == b;
    }
  }

  /** Two payloads with one encoding are one payload. */
  lemma EncodingInjective(p: SettlementPayload, q: SettlementPayload)
    requires Encodable(p) && Encodable(q) && EncodePayload(p) == EncodePayload(q)
    ensures p == q
  {
    PayloadRoundTrip(p);
    PayloadRoundTrip(q);
  }

  // ----- the layout -----

  function Repeat(b: Byte, n: nat): (s: Bytes)
    ensures |s| == n
  {
    seq(n, _ => b)
  }

  lemma LeOf4(a: Byte, b: Byte)
    ensures ToLe(a + 256 * b, 4) == [a, b, 0, 0]
  {
    assert ToLe(0, 1) == [0];
    assert ToLe(0, 2) == [0, 0];
    assert ToLe(b, 3) == [b, 0, 0];
    LowByte(a, b);
  }

  lemma LeOf8(a: Byte)
    ensures ToLe(a, 8) == [a, 0, 0, 0, 0, 0, 0, 0]
  {
    assert ToLe(0, 2) == [0, 0];
    assert ToLe(0, 4) == [0, 0, 0, 0];
    assert ToLe(0, 6) == [0, 0, 0, 0, 0, 0];
    assert ToLe(0, 7) == [0, 0, 0, 0, 0, 0, 0];
  }

  const GOLDEN_META: StoryMeta := StoryMeta(Repeat(0x33, 32), Repeat(0x44, 32), 1234)

  lemma GoldenStoryMeta()
    ensures EncodeStoryMeta(GOLDEN_META) == Repeat(0x33, 32) + Repeat(0x44, 32) + [0xd2, 0x04, 0, 0]
  {
    LeOf4(0xd2, 0x04);
  }

  lemma GoldenUpdates(discriminant: Bytes8)
    ensures EncodeUpdates([Store(Repeat(0x22, 32)), Event(discriminant, EncodeStoryMeta(GOLDEN_META))])
         == ([0] + Repeat(0x22, 32))
            + ([1] + (discriminant + ([0x44, 0, 0, 0] + (Repeat(0x33, 32) + Repeat(0x44, 32) + [0xd2, 0x04, 0, 0]))))
  {
    LeOf4(0x44, 0);
    GoldenStoryMeta();
    StoryMetaRoundTrip(GOLDEN_META);
    var store, event := Store(Repeat(0x22, 32)), Event(discriminant, EncodeStoryMeta(GOLDEN_META));
    TwoUpdates(store, event);
  }

  lemma TwoUpdates(a: StateUpdate, b: StateUpdate)
    ensures EncodeUpdates([a, b]) == EncodeUpdate(a) + EncodeUpdate(b)
  {
    assert [a, b][1..] == [b] && [b][1..] == [];
    assert EncodeUpdates([b]) == EncodeUpdate(b) + [];
  }

  /** The golden vector: integers little-endian, tags 0 and 1, 32-bit counts. */
  lemma GoldenPayload(ix: Bytes8, discriminant: Bytes8)
    ensures EncodePayload(SettlementPayload(7, Repeat(0x11, 32), ix,
                                            [Store(Repeat(0x22, 32)), Event(discriminant, EncodeStoryMeta(GOLDEN_META))]))
         == [7, 0, 0, 0, 0, 0, 0, 0] + (Repeat(0x11, 32) + (ix + ([2, 0, 0, 0] + (
              ([0] + Repeat(0x22, 32))
              + ([1] + (discriminant + ([0x44, 0, 0, 0] + (Repeat(0x33, 32) + Repeat(0x44, 32) + [0xd2, 0x04, 0, 0]))))))))
  {
    LeOf8(7);
    LeOf4(2, 0);
    GoldenUpdates(discriminant);
  }
}
