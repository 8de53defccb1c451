/**
 * `InputStream.toManagedByteBuffer()` of the splash screen (splash/SplashUtil.kt in the dev.su5ed
 * tree): chunks a resource stream into natively allocated memory that grows as bytes arrive.
 */
module SplashUtil {
  import opened Wrappers
  import opened FileSystem

  datatype Failure =
    | EmptyStream        // IllegalStateException("Empty resource input stream")
    | BufferOverflow     // BufferOverflowException from `put`

  /** The concatenation of the chunks the stream delivered, in read order. */
  function Concat(chunks: seq<Bytes>): (joined: Bytes)
    ensures |chunks| == 0 ==> joined == []
  {
    if |chunks| == 0 then [] else Concat(chunks[..|chunks| - 1]) + chunks[|chunks| - 1]
  }

  /** The capacity after `currentLength` grew to `total`: one 3/2 step, only when it is exceeded. */
  function Grow(capacity: nat, total: nat): (grown: nat)
    ensures capacity >= total ==> grown == capacity
    ensures capacity < total ==> grown == capacity * 3 / 2
  {
    if capacity < total then capacity * 3 / 2 else capacity
  }

  /** The corrected growth: at least as much as has been read. */
  function GrowFixed(capacity: nat, total: nat): (grown: nat)
    ensures grown >= total && grown >= capacity
    ensures capacity >= total ==> grown == capacity
  {
    if capacity < total then
      var g := capacity * 3 / 2;
      if g < total then total else g
    else capacity
  }

  /**
   * What the loop does with the remaining chunks, from a buffer of `capacity` bytes holding
   * `written`: grow, then put the chunk, which overflows when it does not fit.
   */
  function Fill(capacity: nat, written: Bytes, chunks: seq<Bytes>, fixed: bool): (r: Result<Bytes, Failure>)
    ensures r.Err? ==> r.error == BufferOverflow
    decreases |chunks|
  {
    if |chunks| == 0 then Ok(written)
    else
      var total := |written| + |chunks[0]|;
      var cap := if fixed then GrowFixed(capacity, total) else Grow(capacity, total);
      if total > cap then Err(BufferOverflow)
      else Fill(cap, written + chunks[0], chunks[1..], fixed)
  }

  /** `toManagedByteBuffer` as written, for a stream whose `available()` is `available`. */
  function Load(available: int, chunks: seq<Bytes>): (r: Result<Bytes, Failure>)
    ensures available < 1 <==> r == Err(EmptyStream)
    ensures r.Err? && available >= 1 ==> r.error == BufferOverflow
  {
    if available < 1 then Err(EmptyStream) else Fill(available, [], chunks, false)
  }

  /** The same with the corrected growth. */
  function LoadFixed(available: int, chunks: seq<Bytes>): (r: Result<Bytes, Failure>)
    ensures r.Err? <==> available < 1
    ensures r.Err? ==> r.error == EmptyStream
  {
    if available < 1 then Err(EmptyStream)
    else
      FillFixedSucceeds(available, [], chunks);
      Fill(available, [], chunks, true)
  }

  lemma {:induction false} ConcatFront(chunks: seq<Bytes>)
    requires |chunks| > 0
    ensures Concat(chunks) == chunks[0] + Concat(chunks[1..])
  {
    var n := |chunks| - 1;
    if n > 0 {
      ConcatFront(chunks[..n]);
      assert chunks[..n][1..] == chunks[1..][..n - 1];
      assert chunks[..n][0] == chunks[0];
    } else {
      assert chunks[..n] == [];
      assert chunks[1..] == [];
    }
  }

  /** Whatever succeeds holds the bytes read so far followed by every later chunk, in order. */
  lemma {:induction false} FillContents(capacity: nat, written: Bytes, chunks: seq<Bytes>, fixed: bool)
    requires Fill(capacity, written, chunks, fixed).Ok?
    ensures Fill(capacity, written, chunks, fixed).value == written + Concat(chunks)
    decreases |chunks|
  {
    if |chunks| > 0 {
      var total := |written| + |chunks[0]|;
      var cap := if fixed then GrowFixed(capacity, total) else Grow(capacity, total);
      FillContents(cap, written + chunks[0], chunks[1..], fixed);
      ConcatFront(chunks);
      assert written + chunks[0] + Concat(chunks[1..]) == written + (chunks[0] + Concat(chunks[1..]));
    }
  }

  /** A successful load holds exactly the bytes of the stream, in read order. */
  lemma LoadContents(available: int, chunks: seq<Bytes>)
    requires Load(available, chunks).Ok?
    ensures Load(available, chunks).value == Concat(chunks)
  {
    FillContents(available, [], chunks, false);
  }

  /** With the corrected growth the put never overflows. */
  lemma {:induction false} FillFixedSucceeds(capacity: nat, written: Bytes, chunks: seq<Bytes>)
    ensures Fill(capacity, written, chunks, true) == Ok(written + Concat(chunks))
    decreases |chunks|
  {
    if |chunks| > 0 {
      var total := |written| + |chunks[0]|;
      assert Fill(capacity, written, chunks, true) == Fill(GrowFixed(capacity, total), written + chunks[0], chunks[1..], true);
      FillFixedSucceeds(GrowFixed(capacity, total), written + chunks[0], chunks[1..]);
      ConcatFront(chunks);
      assert written + chunks[0] + Concat(chunks[1..]) == written + (chunks[0] + Concat(chunks[1..]));
    } else {
      assert written + Concat(chunks) == written;
    }
  }

  lemma LoadFixedContents(available: int, chunks: seq<Bytes>)
    ensures available < 1 ==> LoadFixed(available, chunks) == Err(EmptyStream)
    ensures available >= 1 ==> LoadFixed(available, chunks) == Ok(Concat(chunks))
  {
    if available >= 1 {
      FillFixedSucceeds(available, [], chunks);
      assert [] + Concat(chunks) == Concat(chunks);
    }
  }

  /** At capacity 1 growing is a no-op: a second byte does not fit. */
  lemma CapacityOneNeverGrows(x: Byte, y: Byte)
    ensures Grow(1, 2) == 1
    ensures Load(1, [[x], [y]]) == Err(BufferOverflow)
  {
    assert [[x], [y]][1..] == [[y]];
    assert [[y]][1..] == [];
    assert Fill(1, [x], [[y]], false) == Err(BufferOverflow);
    assert Fill(1, [], [[x], [y]], false) == Fill(1, [x], [[y]], false);
  }

  /** Two full chunks of `available` bytes need twice the capacity, but one 3/2 step gives less. */
  lemma TwoFullReadsOverflow(available: nat, a: Bytes, b: Bytes)
    requires available >= 1 && |a| == available && |b| == available
    ensures Load(available, [a, b]) == Err(BufferOverflow)
    ensures LoadFixed(available, [a, b]) == Ok(a + b)
  {
    assert [a, b][1..] == [b];
    assert [] + a == a;
    assert Grow(available, available) == available;
    assert Grow(available, 2 * available) == available * 3 / 2 < 2 * available;
    assert Fill(available, a, [b], false) == Err(BufferOverflow);
    assert Fill(available, [], [a, b], false) == Fill(available, a, [b], false);
    LoadFixedContents(available, [a, b]);
    assert [a, b][..1] == [a];
    assert Concat([a]) == Concat([]) + a;
  }

  /** One step of the loop: the chunk is grown for and put, or it overflows. */
  lemma FillStep(capacity: nat, written: Bytes, chunks: seq<Bytes>, k: nat)
    requires k < |chunks|
    ensures var total := |written| + |chunks[k]|;
      var cap := Grow(capacity, total);
      Fill(capacity, written, chunks[k..], false) ==
        if total > cap then Err(BufferOverflow) else Fill(cap, written + chunks[k], chunks[k + 1..], false)
  {
    assert chunks[k..][0] == chunks[k];
    assert chunks[k..][1..] == chunks[k + 1..];
  }

  lemma ConcatStep(chunks: seq<Bytes>, k: nat)
    requires k < |chunks|
    ensures Concat(chunks[..k + 1]) == Concat(chunks[..k]) + chunks[k]
  {
    assert chunks[..k + 1][..k] == chunks[..k];
  }

  /** Natively allocated memory (`MemoryUtil.memAlloc`) with a `ByteBuffer` position. */
  class NativeBuffer {
    var mem: array<Byte>
    var position: nat

    ghost predicate Valid()
      reads this
    {
      position <= mem.Length
    }

    /** What has been put so far. */
    function Contents(): Bytes
      reads this, mem
      requires Valid()
    {
      mem[..position]
    }

    /** `MemoryUtil.memAlloc(n)` */
    constructor Alloc(n: nat)
      ensures Valid() && fresh(mem) && mem.Length == n && position == 0
    {
      mem := new Byte[n];
      position := 0;
    }

    /** `MemoryUtil.memRealloc(buffer, n)`: keeps the first bytes and the position, within `n`. */
    method Realloc(n: nat)
      requires Valid()
      modifies this
      ensures Valid() && fresh(mem) && mem.Length == n
      ensures position == if old(position) <= n then old(position) else n
      ensures Contents() == old(Contents())[..position]
    {
      var grown := new Byte[n];
      var keep := if mem.Length <= n then mem.Length else n;
      forall j | 0 <= j < keep {
        grown[j] := mem[j];
      }
      assert grown[..keep] == mem[..keep];
      mem := grown;
      if position > n {
        position := n;
      }
      assert mem[..position] == mem[..keep][..position];
    }

    /** `put(src, 0, len)`: appends the first `len` bytes of `src`, or overflows and changes nothing. */
    method Put(src: array<Byte>, len: nat) returns (ok: bool)
      requires Valid() && len <= src.Length && src != mem
      modifies this, mem
      ensures Valid() && mem == old(mem)
      ensures ok == (old(position) + len <= mem.Length)
      ensures ok ==> Contents() == old(Contents()) + src[..len]
      ensures !ok ==> position == old(position) && mem[..] == old(mem[..])
    {
      if position + len > mem.Length {
        return false;
      }
      forall j | 0 <= j < len {
        mem[position + j] := src[j];
      }
      assert mem[position..position + len] == src[..len];
      position := position + len;
      ok := true;
      assert mem[..position] == mem[..old(position)] + mem[old(position)..position];
    }

    /** `rewind()`: the whole allocation is the result. */
    method Rewind()
      modifies this
      ensures mem == old(mem) && position == 0
    {
      position := 0;
    }
  }

  /** `this.read(array)` delivering `chunk`: the chunk fills the front of the scratch array. */
  method ReadInto(scratch: array<Byte>, chunk: Bytes)
    requires |chunk| <= scratch.Length
    modifies scratch
    ensures scratch[..|chunk|] == chunk
    ensures scratch[|chunk|..] == old(scratch[|chunk|..])
  {
    forall j | 0 <= j < |chunk| {
      scratch[j] := chunk[j];
    }
  }

  /** `array.fill(0)` */
  method Zero(scratch: array<Byte>)
    modifies scratch
    ensures forall j :: 0 <= j < scratch.Length ==> scratch[j] == 0
  {
    forall j | 0 <= j < scratch.Length {
      scratch[j] := 0;
    }
  }

  /**
   * One pass of the loop body after a read delivered `chunk`: `currentLength` grows by the bytes
   * read, the memory grows one 3/2 step if they no longer fit, then the chunk is put and the scratch
   * array zeroed. `ok` is false when the put overflows.
   */
  method ReadStep(backend: NativeBuffer, scratch: array<Byte>, chunk: Bytes, currentLength: nat, backendLength: nat)
    returns (newCurrentLength: nat, newBackendLength: nat, ok: bool)
    requires backend.Valid() && backend.mem != scratch && backend.mem.Length == backendLength
    requires backend.position == currentLength && |chunk| <= scratch.Length
    modifies backend, backend.mem, scratch
    ensures newCurrentLength == currentLength + |chunk|
    ensures newBackendLength == Grow(backendLength, newCurrentLength)
    ensures ok == (newCurrentLength <= newBackendLength)
    ensures ok ==> backend.Valid() && backend.mem != scratch && backend.mem.Length == newBackendLength
    ensures ok ==> backend.position == newCurrentLength && backend.Contents() == old(backend.Contents()) + chunk
    ensures ok ==> forall j :: 0 <= j < scratch.Length ==> scratch[j] == 0
    ensures backend.mem == old(backend.mem) || fresh(backend.mem)
  {
    ghost var before := backend.Contents();
    ReadInto(scratch, chunk);
    var bytesRead := |chunk|;
    newCurrentLength := currentLength + bytesRead;
    newBackendLength := backendLength;
    if newBackendLength < newCurrentLength {
      newBackendLength := newBackendLength * 3 / 2;
      backend.Realloc(newBackendLength);
    }
    if newCurrentLength > newBackendLength {
      return newCurrentLength, newBackendLength, false;
    }
    assert backend.Contents() == before;
    ok := backend.Put(scratch, bytesRead);
    Zero(scratch);
  }

  /**
   * `toManagedByteBuffer`: the stream reports `available` bytes and then delivers the chunks of
   * `chunks` (each at most the scratch array's size) before end of stream.
   */
  method ToManagedByteBuffer(available: int, chunks: seq<Bytes>) returns (r: Result<Bytes, Failure>)
    requires forall k :: 0 <= k < |chunks| ==> |chunks[k]| <= available
    ensures r == Load(available, chunks)
  {
    if available < 1 {
      return Err(EmptyStream);
    }
    var scratch := new Byte[available](_ => 0);
    var backendLength: nat := available;
    var backend := new NativeBuffer.Alloc(backendLength);
    var currentLength: nat := 0;
    var k := 0;
    while k < |chunks|
      invariant 0 <= k <= |chunks|
      invariant fresh(backend) && fresh(backend.mem)
      invariant backend.Valid() && backend.mem != scratch && backend.mem.Length == backendLength
      invariant currentLength == backend.position == |Concat(chunks[..k])|
      invariant Fill(backendLength, backend.Contents(), chunks[k..], false) == Load(available, chunks)
    {
      ghost var written, capacity := backend.Contents(), backendLength;
      ConcatStep(chunks, k);
      FillStep(backendLength, written, chunks, k);
      var ok;
      currentLength, backendLength, ok := ReadStep(backend, scratch, chunks[k], currentLength, backendLength);
      if !ok {
        assert Fill(capacity, written, chunks[k..], false) == Err(BufferOverflow);
        return Err(BufferOverflow);
      }
      k := k + 1;
    }
    assert chunks[k..] == [];
    ghost var read := backend.Contents();
    assert Load(available, chunks) == Ok(read);
    backend.Realloc(currentLength);
    assert backend.Contents() == read[..currentLength] == read;
    assert backend.mem[..] == read;
    backend.Rewind();
    r := Ok(backend.mem[..]);
  }
}
