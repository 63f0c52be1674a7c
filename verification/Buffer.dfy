/**
 Staged story buffers (settlement_core/src/buffer.rs,
 settlement_program/src/write_buffer.rs): content from offset zero, a trailer
 with the payer and the capacity at the end of the account. The account grows in
 place, at most 10,240 bytes an instruction, and the trailer moves with its end.
 */
module Buffer {
  import opened Prelude
  import opened LittleEndian
  import opened SettlementErrors

  const BUFFER_TRAILER_LEN: nat := 36
  const MAX_PERMITTED_DATA_INCREASE: nat := 10_240
  const MAX_BUFFER_CONTENT_LEN: nat := 10 * 1024 * 1024 - BUFFER_TRAILER_LEN

  datatype WriteArgs = WriteArgs(offset: U32, bytes: Bytes, maxSize: U32)
  {
    function End(): nat { offset + |bytes| }
  }

  // ----- account bytes -----

  function Trailer(payer: Pubkey, maxContent: U32): (t: Bytes)
    ensures |t| == BUFFER_TRAILER_LEN
  {
    payer + ToLe(maxContent, 4)
  }

  function WriteAt(data: Bytes, offset: nat, bytes: Bytes): (r: Bytes)
    requires offset + |bytes| <= |data|
    ensures |r| == |data|
    ensures forall i :: 0 <= i < |r| ==>
              r[i] == if offset <= i < offset + |bytes| then bytes[i - offset] else data[i]
  {
    data[..offset] + bytes + data[offset + |bytes|..]
  }

  function ContentLen(dataLen: nat): Result<nat, SettlementError> {
    if dataLen < BUFFER_TRAILER_LEN then Err(InvalidBufferBounds) else Ok(dataLen - BUFFER_TRAILER_LEN)
  }

  function ReadTrailer(data: Bytes): Result<(Pubkey, U32), SettlementError> {
    var start :- ContentLen(|data|);
    var maxContent := data[start + 32..];
    FromLeBound(maxContent);
    Widths();
    Ok((data[start..start + 32], FromLe(maxContent)))
  }

  lemma TrailerRoundTrip(content: Bytes, payer: Pubkey, maxContent: U32)
    ensures ReadTrailer(content + Trailer(payer, maxContent)) == Ok((payer, maxContent))
  {
    var data := content + Trailer(payer, maxContent);
    assert data[|content|..|content| + 32] == payer;
    assert data[|content| + 32..] == ToLe(maxContent, 4);
    Widths();
    LeRoundTrip(maxContent, 4);
  }

  // ----- one write -----

  function Min(a: nat, b: nat): nat { if a < b then a else b }

  /** First write: allocate what one instruction may, rent aside. */
  function Created(maxSize: U32, payer: Pubkey): Result<Bytes, SettlementError> {
    if maxSize > MAX_BUFFER_CONTENT_LEN then Err(InvalidBufferBounds)
    else
      var initial := Min(maxSize + BUFFER_TRAILER_LEN, MAX_PERMITTED_DATA_INCREASE);
      Ok(Zeros(initial - BUFFER_TRAILER_LEN) + Trailer(payer, maxSize))
  }

  /** Reallocation zero-extends, by no more than the limit over the length the
      account had when the instruction started. */
  function Reallocated(data: Bytes, newLen: nat, originalLen: nat): Result<Bytes, SettlementError>
    requires newLen >= |data|
  {
    if newLen > originalLen + MAX_PERMITTED_DATA_INCREASE then Err(InvalidRealloc)
    else Ok(data + Zeros(newLen - |data|))
  }

  /** Zero the old trailer, write it again at the new end. */
  function TrailerMoved(data: Bytes, oldLen: nat, payer: Pubkey, maxContent: U32): Bytes
    requires BUFFER_TRAILER_LEN <= oldLen <= |data|
  {
    var cleared := WriteAt(data, oldLen - BUFFER_TRAILER_LEN, Zeros(BUFFER_TRAILER_LEN));
    WriteAt(cleared, |data| - BUFFER_TRAILER_LEN, Trailer(payer, maxContent))
  }

  function Grown(data: Bytes, end: nat, payer: Pubkey, maxContent: U32, originalLen: nat): Result<Bytes, SettlementError>
    requires |data| >= BUFFER_TRAILER_LEN
  {
    var needed := end + BUFFER_TRAILER_LEN;
    if needed <= |data| then Ok(data)
    else
      var target := Min(|data| + MAX_PERMITTED_DATA_INCREASE, maxContent + BUFFER_TRAILER_LEN);
      if needed > target then Err(InvalidBufferBounds)
      else
        var longer :- Reallocated(data, target, originalLen);
        Ok(TrailerMoved(longer, |data|, payer, maxContent))
  }

  /** A write into an account that exists by now; it held `originalLen` bytes
      when the instruction started. */
  function WrittenInto(data: Bytes, args: WriteArgs, originalLen: nat): Result<Bytes, SettlementError> {
    var trailer :- ReadTrailer(data);
    if args.End() > trailer.1 then Err(InvalidBufferBounds)
    else
      var grown :- Grown(data, args.End(), trailer.0, trailer.1, originalLen);
      var contentLen :- ContentLen(|grown|);
      if args.End() > contentLen then Err(InvalidBufferBounds)
      else Ok(WriteAt(grown, args.offset, args.bytes))
  }

  /** A write into the account `buffer` (absent: never created or closed). */
  function Written(buffer: Option<Bytes>, args: WriteArgs, payer: Pubkey): Result<Bytes, SettlementError> {
    match buffer
    case Some(data) => WrittenInto(data, args, |data|)
    case None =>
      var data :- Created(args.maxSize, payer);
      WrittenInto(data, args, 0)
  }

  // ----- refinement of a fixed array -----

  /** The account holds a prefix of `content` and then the trailer; the rest of
      `content` is still zero. */
  ghost predicate Refines(data: Bytes, content: Bytes, payer: Pubkey, maxContent: U32) {
    && |content| == maxContent <= MAX_BUFFER_CONTENT_LEN
    && BUFFER_TRAILER_LEN <= |data| <= maxContent + BUFFER_TRAILER_LEN
    && data == content[..|data| - BUFFER_TRAILER_LEN] + Trailer(payer, maxContent)
    && forall i :: |data| - BUFFER_TRAILER_LEN <= i < |content| ==> content[i] == 0
  }

  lemma RefinesReadsTrailer(data: Bytes, content: Bytes, payer: Pubkey, maxContent: U32)
    requires Refines(data, content, payer, maxContent)
    ensures ReadTrailer(data) == Ok((payer, maxContent))
  {
    TrailerRoundTrip(content[..|data| - BUFFER_TRAILER_LEN], payer, maxContent);
  }

  lemma CreationRefines(maxSize: U32, payer: Pubkey)
    requires maxSize <= MAX_BUFFER_CONTENT_LEN
    ensures Created(maxSize, payer).Ok? && Refines(Created(maxSize, payer).value, Zeros(maxSize), payer, maxSize)
  {}

  /** Growth exposes more of the same array, overlap of the two trailers or not. */
  lemma GrowthRefines(data: Bytes, content: Bytes, payer: Pubkey, maxContent: U32, newLen: nat)
    requires Refines(data, content, payer, maxContent)
    requires |data| <= newLen <= maxContent + BUFFER_TRAILER_LEN
    ensures Refines(TrailerMoved(data + Zeros(newLen - |data|), |data|, payer, maxContent), content, payer, maxContent)
  {
    var longer, old_ := data + Zeros(newLen - |data|), |data| - BUFFER_TRAILER_LEN;
    var cleared := WriteAt(longer, old_, Zeros(BUFFER_TRAILER_LEN));
    var moved := TrailerMoved(longer, |data|, payer, maxContent);
    var split := newLen - BUFFER_TRAILER_LEN;
    assert forall i :: 0 <= i < split ==> cleared[i] == content[i];
    assert moved[..split] == content[..split];
    assert moved[split..] == Trailer(payer, maxContent);
    assert moved == moved[..split] + moved[split..];
  }

  lemma WriteRefines(data: Bytes, content: Bytes, payer: Pubkey, maxContent: U32, offset: nat, bytes: Bytes)
    requires Refines(data, content, payer, maxContent)
    requires offset + |bytes| <= |data| - BUFFER_TRAILER_LEN
    ensures Refines(WriteAt(data, offset, bytes), WriteAt(content, offset, bytes), payer, maxContent)
  {
    var split := |data| - BUFFER_TRAILER_LEN;
    var after := WriteAt(data, offset, bytes);
    assert after[..split] == WriteAt(content, offset, bytes)[..split];
    assert after[split..] == Trailer(payer, maxContent);
    assert after == after[..split] + after[split..];
  }

  /** The content length a write can reach in one instruction, from an account
      of this length. */
  function Reach(total: nat, maxContent: U32): int {
    Min(total + MAX_PERMITTED_DATA_INCREASE, maxContent + BUFFER_TRAILER_LEN) - BUFFER_TRAILER_LEN
  }

  /** The account's length after a write that ends at `end`: unchanged if the
      write fits, otherwise as long as one instruction can make it. */
  function GrownLen(total: nat, end: nat, maxContent: U32): nat {
    if end + BUFFER_TRAILER_LEN <= total then total
    else Min(total + MAX_PERMITTED_DATA_INCREASE, maxContent + BUFFER_TRAILER_LEN)
  }

  /** A write to an existing buffer succeeds iff it stays within the capacity
      and within one growth step, and then writes through to the abstract array
      and leaves the trailer's contents alone. */
  lemma WriteToExisting(data: Bytes, content: Bytes, payer: Pubkey, maxContent: U32, args: WriteArgs, writer: Pubkey)
    requires Refines(data, content, payer, maxContent)
    ensures Written(Some(data), args, writer).Ok? <==> args.End() <= Reach(|data|, maxContent)
    ensures Written(Some(data), args, writer).Ok? ==>
              && args.End() <= |content|
              && |Written(Some(data), args, writer).value| == GrownLen(|data|, args.End(), maxContent) >= |data|
              && args.End() <= |Written(Some(data), args, writer).value| - BUFFER_TRAILER_LEN
              && Refines(Written(Some(data), args, writer).value,
                         WriteAt(content, args.offset, args.bytes), payer, maxContent)
  {
    RefinesReadsTrailer(data, content, payer, maxContent);
    if args.End() <= maxContent {
      var grown := Grown(data, args.End(), payer, maxContent, |data|);
      if grown.Ok? {
        GrownRefines(data, content, payer, maxContent, args.End());
        WriteRefines(grown.value, content, payer, maxContent, args.offset, args.bytes);
      }
    }
  }

  /** Once the checks before it have passed, the last bounds check cannot fail. */
  lemma GrownRefines(data: Bytes, content: Bytes, payer: Pubkey, maxContent: U32, end: nat)
    requires Refines(data, content, payer, maxContent) && end <= maxContent
    requires Grown(data, end, payer, maxContent, |data|).Ok?
    ensures var grown := Grown(data, end, payer, maxContent, |data|).value;
            && Refines(grown, content, payer, maxContent)
            && |grown| == GrownLen(|data|, end, maxContent)
            && |data| <= |grown| && end <= |grown| - BUFFER_TRAILER_LEN
  {
    if end + BUFFER_TRAILER_LEN > |data| {
      GrowthRefines(data, content, payer, maxContent,
                    Min(|data| + MAX_PERMITTED_DATA_INCREASE, maxContent + BUFFER_TRAILER_LEN));
    }
  }

  /** The creating write succeeds iff the capacity is allowed and the write fits
      the initial allocation. */
  lemma WriteCreates(args: WriteArgs, payer: Pubkey)
    ensures Written(None, args, payer).Ok? <==>
            args.maxSize <= MAX_BUFFER_CONTENT_LEN && args.End() <= Reach(0, args.maxSize)
    ensures Written(None, args, payer).Ok? ==>
              && args.End() <= args.maxSize
              && |Written(None, args, payer).value| == Min(args.maxSize + BUFFER_TRAILER_LEN, MAX_PERMITTED_DATA_INCREASE)
              && args.End() <= |Written(None, args, payer).value| - BUFFER_TRAILER_LEN
              && Refines(Written(None, args, payer).value,
                         WriteAt(Zeros(args.maxSize), args.offset, args.bytes), payer, args.maxSize)
  {
    if args.maxSize <= MAX_BUFFER_CONTENT_LEN {
      CreationRefines(args.maxSize, payer);
      var data := Created(args.maxSize, payer).value;
      RefinesReadsTrailer(data, Zeros(args.maxSize), payer, args.maxSize);
      if args.End() + BUFFER_TRAILER_LEN <= |data| {
        WriteRefines(data, Zeros(args.maxSize), payer, args.maxSize, args.offset, args.bytes);
      }
    }
  }

  // ----- runs of writes -----

  datatype Write = Write(args: WriteArgs, payer: Pubkey)

  /** A failing write changes nothing. */
  function BufferRun(writes: seq<Write>): Option<Bytes> {
    if writes == [] then None
    else
      var before, w := BufferRun(writes[..|writes| - 1]), writes[|writes| - 1];
      match Written(before, w.args, w.payer)
      case Err(_) => before
      case Ok(after) => Some(after)
  }

  /** The array, who paid for it, and how much of the account is allocated. */
  datatype Staged = Staged(content: Bytes, payer: Pubkey, maxContent: U32, total: nat)

  /** One write on the array alone: the first fixes payer and capacity, later
      ones overwrite their range; one that goes too far is refused. */
  function ArrayWritten(before: Option<Staged>, w: Write): Option<Staged> {
    match before
    case None =>
      if w.args.maxSize > MAX_BUFFER_CONTENT_LEN || w.args.End() > Reach(0, w.args.maxSize) then None
      else
        Some(Staged(WriteAt(Zeros(w.args.maxSize), w.args.offset, w.args.bytes), w.payer, w.args.maxSize,
                    Min(w.args.maxSize + BUFFER_TRAILER_LEN, MAX_PERMITTED_DATA_INCREASE)))
    case Some(s) =>
      if w.args.End() > Reach(s.total, s.maxContent) || w.args.End() > |s.content| then before
      else
        Some(s.(content := WriteAt(s.content, w.args.offset, w.args.bytes),
                total := GrownLen(s.total, w.args.End(), s.maxContent)))
  }

  function ArrayRun(writes: seq<Write>): Option<Staged> {
    if writes == [] then None else ArrayWritten(ArrayRun(writes[..|writes| - 1]), writes[|writes| - 1])
  }

  /** What the account holds for an array: the allocated part, then the trailer. */
  function AccountImage(staged: Option<Staged>): Option<Bytes> {
    match staged
    case None => None
    case Some(s) =>
      if s.total < BUFFER_TRAILER_LEN || s.total - BUFFER_TRAILER_LEN > |s.content| then None
      else Some(s.content[..s.total - BUFFER_TRAILER_LEN] + Trailer(s.payer, s.maxContent))
  }

  /** The account of an array: nothing without one, its image with one. */
  ghost predicate Represents(buffer: Option<Bytes>, staged: Option<Staged>) {
    && buffer == AccountImage(staged)
    && (staged.Some? ==>
          && buffer.Some? && |buffer.value| == staged.value.total
          && Refines(buffer.value, staged.value.content, staged.value.payer, staged.value.maxContent))
  }

  lemma RefinesIsImage(data: Bytes, s: Staged)
    requires Refines(data, s.content, s.payer, s.maxContent) && |data| == s.total
    ensures Represents(Some(data), Some(s))
  {}

  /** A write on the account is the write on the array. */
  lemma WriteRepresents(buffer: Option<Bytes>, staged: Option<Staged>, w: Write)
    requires Represents(buffer, staged)
    ensures var after := Written(buffer, w.args, w.payer);
            Represents(if after.Ok? then Some(after.value) else buffer, ArrayWritten(staged, w))
  {
    var after := Written(buffer, w.args, w.payer);
    if staged.Some? {
      var s := staged.value;
      WriteToExisting(buffer.value, s.content, s.payer, s.maxContent, w.args, w.payer);
    } else {
      WriteCreates(w.args, w.payer);
    }
    if after.Ok? {
      RefinesIsImage(after.value, ArrayWritten(staged, w).value);
    }
  }

  /** After any sequence of writes the account is the image of the array: its
      allocated prefix followed by the payer and capacity recorded at creation. */
  lemma {:induction false} BufferRefinement(writes: seq<Write>)
    ensures BufferRun(writes) == AccountImage(ArrayRun(writes))
    ensures Represents(BufferRun(writes), ArrayRun(writes))
  {
    if writes != [] {
      BufferRefinement(writes[..|writes| - 1]);
      WriteRepresents(BufferRun(writes[..|writes| - 1]), ArrayRun(writes[..|writes| - 1]), writes[|writes| - 1]);
    }
  }

  // ----- chunked upload -----

  function Flatten(chunks: seq<Bytes>): Bytes {
    if chunks == [] then [] else Flatten(chunks[..|chunks| - 1]) + chunks[|chunks| - 1]
  }

  /** Upload in order, each chunk at the end of the previous one. */
  function Upload(chunks: seq<Bytes>, maxContent: U32, payer: Pubkey): Result<Option<Bytes>, SettlementError> {
    if chunks == [] then Ok(None)
    else
      var earlier := chunks[..|chunks| - 1];
      var before :- Upload(earlier, maxContent, payer);
      if |Flatten(earlier)| > U32_MAX then Err(InvalidBufferBounds)
      else
        var after :- Written(before, WriteArgs(|Flatten(earlier)|, chunks[|chunks| - 1], maxContent), payer);
        Ok(Some(after))
  }

  /** Chunks of at most 10,240 bytes, the first within the initial allocation,
      never fail, and the account then starts with the uploaded bytes. */
  lemma {:induction false} UploadSucceeds(chunks: seq<Bytes>, maxContent: U32, payer: Pubkey)
    requires chunks != [] && maxContent <= MAX_BUFFER_CONTENT_LEN
    requires forall i :: 0 <= i < |chunks| ==> |chunks[i]| <= MAX_PERMITTED_DATA_INCREASE
    requires |chunks[0]| <= MAX_PERMITTED_DATA_INCREASE - BUFFER_TRAILER_LEN
    requires |Flatten(chunks)| <= maxContent
    ensures Upload(chunks, maxContent, payer).Ok? && Upload(chunks, maxContent, payer).value.Some?
    ensures var data, total := Upload(chunks, maxContent, payer).value.value, |Flatten(chunks)|;
            && total + BUFFER_TRAILER_LEN <= |data|
            && data[..total] == Flatten(chunks)
            && exists content :: Refines(data, content, payer, maxContent)
  {
    var earlier, last := chunks[..|chunks| - 1], chunks[|chunks| - 1];
    if earlier == [] {
      FirstChunk(last, maxContent, payer);
      assert Flatten(chunks) == last;
    } else {
      UploadSucceeds(earlier, maxContent, payer);
      NextChunk(Upload(earlier, maxContent, payer).value.value, Flatten(earlier), last, maxContent, payer);
    }
  }

  lemma FirstChunk(chunk: Bytes, maxContent: U32, payer: Pubkey)
    requires maxContent <= MAX_BUFFER_CONTENT_LEN && |chunk| <= maxContent
    requires |chunk| <= MAX_PERMITTED_DATA_INCREASE - BUFFER_TRAILER_LEN
    ensures var r := Written(None, WriteArgs(0, chunk, maxContent), payer);
            && r.Ok?
            && |chunk| + BUFFER_TRAILER_LEN <= |r.value| && r.value[..|chunk|] == chunk
            && exists content :: Refines(r.value, content, payer, maxContent)
  {
    var args := WriteArgs(0, chunk, maxContent);
    WriteCreates(args, payer);
    var data, content := Written(None, args, payer).value, WriteAt(Zeros(maxContent), 0, chunk);
    assert Refines(data, content, payer, maxContent);
    assert data[..|chunk|] == content[..|chunk|] == chunk;
  }

  lemma NextChunk(before: Bytes, done: Bytes, chunk: Bytes, maxContent: U32, payer: Pubkey)
    requires exists content :: Refines(before, content, payer, maxContent)
    requires |done| + BUFFER_TRAILER_LEN <= |before| && before[..|done|] == done
    requires |chunk| <= MAX_PERMITTED_DATA_INCREASE && |done| + |chunk| <= maxContent
    ensures var r := Written(Some(before), WriteArgs(|done|, chunk, maxContent), payer);
            && r.Ok?
            && |done| + |chunk| + BUFFER_TRAILER_LEN <= |r.value| && r.value[..|done| + |chunk|] == done + chunk
            && exists content :: Refines(r.value, content, payer, maxContent)
  {
    var args := WriteArgs(|done|, chunk, maxContent);
    var content :| Refines(before, content, payer, maxContent);
    WriteToExisting(before, content, payer, maxContent, args, payer);
    var data, after := Written(Some(before), args, payer).value, WriteAt(content, |done|, chunk);
    assert Refines(data, after, payer, maxContent);
    UploadedPrefix(before, content, data, after, payer, maxContent, done, chunk);
  }

  lemma UploadedPrefix(before: Bytes, content: Bytes, data: Bytes, after: Bytes, payer: Pubkey, maxContent: U32,
                       done: Bytes, last: Bytes)
    requires Refines(before, content, payer, maxContent) && Refines(data, after, payer, maxContent)
    requires |done| + BUFFER_TRAILER_LEN <= |before| && before[..|done|] == done
    requires |done| + |last| + BUFFER_TRAILER_LEN <= |data|
    requires after == WriteAt(content, |done|, last)
    ensures data[..|done| + |last|] == done + last
  {
    assert before[..|done|] == content[..|done|];
    assert data[..|done| + |last|] == after[..|done| + |last|];
    assert after[..|done| + |last|] == content[..|done|] + last;
  }
}
