/** The buffer account itself, written in place (settlement_program/src/write_buffer.rs,
    settlement_program/src/close_buffer.rs). */
module BufferAccount {
  import opened Prelude
  import opened LittleEndian
  import opened SettlementErrors
  import opened Buffer

  class BufferAccount {
    /** Does the settlement program own the account? */
    var owned: bool
    var data: array<Byte>

    ghost predicate Valid()
      reads this
    {
      !owned ==> data.Length == 0
    }

    ghost function View(): Option<Bytes>
      reads this, data
    {
      if owned then Some(data[..]) else None
    }

    constructor ()
      ensures Valid() && fresh(data) && View() == None
    {
      owned := false;
      data := new Byte[0];
    }

    method CopyIn(offset: nat, bytes: Bytes)
      requires offset + |bytes| <= data.Length
      modifies data
      ensures data[..] == WriteAt(old(data[..]), offset, bytes)
    {
      for i := 0 to |bytes|
        invariant forall k :: 0 <= k < data.Length ==>
                    data[k] == if offset <= k < offset + i then bytes[k - offset] else old(data[k])
      {
        data[offset + i] := bytes[i];
      }
      assert data[..] == WriteAt(old(data[..]), offset, bytes);
    }

    method WriteBufferTrailer(payer: Pubkey, maxContent: U32) returns (r: Result<(), SettlementError>)
      modifies data
      ensures r.Ok? <==> data.Length >= BUFFER_TRAILER_LEN
      ensures r.Ok? ==> data[..] == WriteAt(old(data[..]), data.Length - BUFFER_TRAILER_LEN, Trailer(payer, maxContent))
      ensures r.Err? ==> r == Err(InvalidBufferBounds) && data[..] == old(data[..])
    {
      var start := ContentLen(data.Length);
      if start.Err? {
        return Err(start.error);
      }
      CopyIn(start.value, payer);
      CopyIn(start.value + 32, ToLe(maxContent, 4));
      r := Ok(());
    }

    method Realloc(newLen: nat, originalLen: nat) returns (r: Result<(), SettlementError>)
      requires newLen >= data.Length
      modifies this`data
      ensures owned == old(owned)
      ensures r.Ok? ==> Reallocated(old(data[..]), newLen, originalLen) == Ok(data[..]) && data.Length == newLen && fresh(data)
      ensures r.Err? ==> Reallocated(old(data[..]), newLen, originalLen) == Err(r.error) && data == old(data)
    {
      if newLen > originalLen + MAX_PERMITTED_DATA_INCREASE {
        return Err(InvalidRealloc);
      }
      var before := data;
      data := new Byte[newLen](i requires 0 <= i < newLen reads before => if i < before.Length then before[i] else 0);
      assert data[..] == old(data[..]) + Zeros(newLen - old(data.Length));
      r := Ok(());
    }

    /** First write: allocate and put the trailer down. */
    method Create(maxSize: U32, payer: Pubkey) returns (r: Result<(), SettlementError>)
      requires !owned && Valid()
      modifies this
      ensures r.Ok? ==> owned && Created(maxSize, payer) == Ok(data[..]) && fresh(data)
      ensures r.Err? ==> Created(maxSize, payer) == Err(r.error) && !owned && data == old(data)
    {
      if maxSize > MAX_BUFFER_CONTENT_LEN {
        return Err(InvalidBufferBounds);
      }
      var initial := Min(maxSize + BUFFER_TRAILER_LEN, MAX_PERMITTED_DATA_INCREASE);
      data := new Byte[initial](_ => 0);
      owned := true;
      assert data[..] == Zeros(initial);
      r := WriteBufferTrailer(payer, maxSize);
      assert data[..] == Zeros(initial - BUFFER_TRAILER_LEN) + Trailer(payer, maxSize);
    }

    /** Zero the old trailer, write it again at the new end. */
    method MoveTrailer(oldLen: nat, payer: Pubkey, maxContent: U32) returns (r: Result<(), SettlementError>)
      requires BUFFER_TRAILER_LEN <= oldLen <= data.Length
      modifies data
      ensures r.Ok? && data[..] == TrailerMoved(old(data[..]), oldLen, payer, maxContent)
    {
      CopyIn(oldLen - BUFFER_TRAILER_LEN, Zeros(BUFFER_TRAILER_LEN));
      r := WriteBufferTrailer(payer, maxContent);
    }

    /** Make room for content up to `end`, moving the trailer. */
    method Grow(end: nat, payer: Pubkey, maxContent: U32, originalLen: nat) returns (r: Result<(), SettlementError>)
      requires owned && data.Length >= BUFFER_TRAILER_LEN
      modifies this`data, data
      ensures owned
      ensures r.Ok? ==> Grown(old(data[..]), end, payer, maxContent, originalLen) == Ok(data[..])
                        && (data == old(data) || fresh(data))
      ensures r.Err? ==> Grown(old(data[..]), end, payer, maxContent, originalLen) == Err(r.error)
    {
      var currentTotal, neededTotal := data.Length, end + BUFFER_TRAILER_LEN;
      if neededTotal <= currentTotal {
        return Ok(());
      }
      var grownTotal := Min(currentTotal + MAX_PERMITTED_DATA_INCREASE, maxContent + BUFFER_TRAILER_LEN);
      if neededTotal > grownTotal {
        return Err(InvalidBufferBounds);
      }
      r := Realloc(grownTotal, originalLen);
      if r.Ok? {
        r := MoveTrailer(currentTotal, payer, maxContent);
      }
    }

    method ReadBufferTrailer() returns (r: Result<(Pubkey, U32), SettlementError>)
      ensures r == ReadTrailer(data[..])
    {
      r := ReadTrailer(data[..]);
    }

    /** Grow if needed, then write. */
    method WriteInto(args: WriteArgs, originalLen: nat) returns (r: Result<(), SettlementError>)
      requires owned
      modifies this`data, data
      ensures owned
      ensures r.Ok? ==> WrittenInto(old(data[..]), args, originalLen) == Ok(data[..])
      ensures r.Err? ==> WrittenInto(old(data[..]), args, originalLen) == Err(r.error)
    {
      var trailer := ReadBufferTrailer();
      if trailer.Err? {
        return Err(trailer.error);
      }
      var end := args.offset + |args.bytes|;
      if end > trailer.value.1 {
        return Err(InvalidBufferBounds);
      }
      r := Grow(end, trailer.value.0, trailer.value.1, originalLen);
      if r.Err? {
        return;
      }
      if end + BUFFER_TRAILER_LEN > data.Length {
        return Err(InvalidBufferBounds);
      }
      CopyIn(args.offset, args.bytes);
    }

    /** Create if needed, then write. The guard on the transition index is the
        program's. */
    method ProcessWriteBuffer(args: WriteArgs, payer: Pubkey) returns (r: Result<(), SettlementError>)
      requires Valid()
      modifies this, data
      ensures r.Ok? ==> Valid() && Written(old(View()), args, payer) == Ok(data[..]) && View() == Some(data[..])
      ensures r.Err? ==> Written(old(View()), args, payer) == Err(r.error)
    {
      var originalLen := data.Length;
      if !owned {
        r := Create(args.maxSize, payer);
        if r.Err? {
          return;
        }
      }
      r := WriteInto(args, originalLen);
    }

    /** Closing hands the account back and empties it. */
    method Reclaim()
      requires owned
      modifies this
      ensures Valid() && View() == None && fresh(data)
    {
      owned := false;
      data := new Byte[0];
    }
  }
}
