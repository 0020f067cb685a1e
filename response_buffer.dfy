/** The growable buffer that collects the service's reply: `struct MemoryStruct`
    and `write_memory_callback`, which libcurl calls once per received chunk. */
module ResponseBuffer {
  import opened Wrappers

  newtype byte = x: int | 0 <= x < 256

  /** What a C string read from the start of m denotes: the bytes before the first
      NUL, or None when m holds no NUL and the read runs past the allocation. */
  function CString(m: seq<byte>): (r: Option<seq<byte>>)
    ensures r.None? <==> 0 !in m
    ensures r.Some? ==> |r.value| < |m| && r.value == m[..|r.value|] && m[|r.value|] == 0 && 0 !in r.value
  {
    if m == [] then None
    else if m[0] == 0 then Some([])
    else
      var t := CString(m[1..]);
      assert m == [m[0]] + m[1..];
      if t.None? then None else Some([m[0]] + t.value)
  }

  /** The chunks of a reply, joined in order of arrival. */
  function Flatten(chunks: seq<seq<byte>>): seq<byte> {
    if chunks == [] then [] else Flatten(chunks[..|chunks| - 1]) + chunks[|chunks| - 1]
  }

  class MemoryStruct {
    var memory: array<byte>
    var size: nat

    /** Every allocation is exactly one byte longer than the data it holds. */
    ghost predicate Valid()
      reads this
    {
      memory.Length == size + 1
    }

    /** The bytes received so far. */
    ghost function Contents(): seq<byte>
      reads this, memory
      requires Valid()
    {
      memory[..size]
    }

    /** The data is followed by a NUL, so it can be read as a C string. */
    ghost predicate Terminated()
      reads this, memory
      requires Valid()
    {
      memory[size] == 0
    }

    /** As written (ai_module.c:63-64): `malloc(1)` and `size = 0`; the one byte is
        not initialised, so it holds whatever was there before. */
    constructor Malloc(garbage: byte)
      ensures Valid() && fresh(memory)
      ensures size == 0 && memory[0] == garbage
    {
      memory := new byte[1](_ => garbage);
      size := 0;
    }

    /** Corrected: the one byte is the terminator of the empty string. */
    constructor Zeroed()
      ensures Valid() && fresh(memory)
      ensures size == 0 && Terminated()
    {
      memory := new byte[1](_ => 0);
      size := 0;
    }

    /** write_memory_callback: grows the buffer by size*nmemb bytes plus the
        terminator, appends the chunk and returns its length; if the reallocation
        fails it returns 0 and the buffer is left as it was. */
    method WriteMemoryCallback(contents: seq<byte>, sz: nat, nmemb: nat, allocOk: bool)
        returns (written: nat)
      requires Valid() && |contents| == sz * nmemb
      modifies this
      ensures Valid()
      ensures allocOk ==> written == sz * nmemb && fresh(memory)
      ensures allocOk ==> size == old(size) + sz * nmemb
      ensures allocOk ==> Contents() == old(Contents()) + contents && Terminated()
      ensures !allocOk ==> written == 0 && memory == old(memory) && size == old(size)
      ensures !allocOk ==> Contents() == old(Contents()) && memory[size] == old(memory[size])
    {
      var realsize := sz * nmemb;
      if !allocOk {
        return 0;
      }
      // realloc(memory, size + realsize + 1): a new block holding the old one
      var old_memory, n := memory, size;
      var ptr := new byte[n + realsize + 1](_ => 0);
      var k := 0;
      while k < old_memory.Length
        invariant 0 <= k <= old_memory.Length
        invariant ptr[..k] == old_memory[..k]
      {
        ptr[k] := old_memory[k];
        k := k + 1;
      }
      ghost var before := old_memory[..n];
      assert ptr[..n] == before;
      // memcpy(&memory[size], contents, realsize)
      k := 0;
      while k < realsize
        invariant 0 <= k <= realsize
        invariant ptr[..n] == before
        invariant ptr[n..n + k] == contents[..k]
      {
        ptr[n + k] := contents[k];
        k := k + 1;
      }
      assert ptr[..n + realsize] == before + contents by {
        assert ptr[..n + realsize] == ptr[..n] + ptr[n..n + realsize];
      }
      ptr[n + realsize] := 0;
      assert ptr[..n + realsize] == before + contents;
      memory, size := ptr, n + realsize;
      written := realsize;
    }
  }

  /** A terminated buffer whose data holds no NUL reads back as exactly that data. */
  lemma {:induction false} TerminatedReadsBack(m: seq<byte>, n: nat)
    requires n < |m| && m[n] == 0 && 0 !in m[..n]
    ensures CString(m) == Some(m[..n])
  {
    assert m[n] in m;
  }

  /** The transfer as written: the buffer starts as `malloc(1)`, libcurl delivers the
      chunks through the callback (stopping at the first one the callback does not
      take whole), and the reply is then read as a C string. Once a chunk has been
      taken the buffer is terminated and the reply reads back; with an empty reply
      the callback never runs and the read starts at the uninitialised byte. */
  method ReceiveAsWritten(garbage: byte, chunks: seq<seq<byte>>, allocOk: seq<bool>)
      returns (complete: bool, text: Option<seq<byte>>)
    requires |allocOk| == |chunks|
    ensures (forall k :: 0 <= k < |chunks| ==> allocOk[k]) ==> complete
    ensures chunks == [] ==> complete && text == CString([garbage])
    ensures chunks == [] && garbage != 0 ==> text.None?
    ensures chunks != [] && (forall k :: 0 <= k < |chunks| ==> allocOk[k]) && 0 !in Flatten(chunks) ==>
              text == Some(Flatten(chunks))
  {
    var chunk := new MemoryStruct.Malloc(garbage);
    var i := 0;
    while i < |chunks|
      invariant 0 <= i <= |chunks|
      invariant fresh(chunk) && fresh(chunk.memory) && chunk.Valid()
      invariant i == 0 ==> chunk.memory[..] == [garbage]
      invariant i > 0 && (forall k :: 0 <= k < i ==> allocOk[k]) ==> chunk.Terminated()
      invariant chunk.Contents() == Flatten(chunks[..i])
    {
      var w := chunk.WriteMemoryCallback(chunks[i], 1, |chunks[i]|, allocOk[i]);
      if w != |chunks[i]| {
        return false, None;
      }
      assert chunks[..i + 1][..i] == chunks[..i];
      i := i + 1;
    }
    assert chunks[..i] == chunks;
    complete := true;
    text := CString(chunk.memory[..]);
    assert chunk.memory[..][..chunk.size] == Flatten(chunks);
    if chunks != [] && (forall k :: 0 <= k < |chunks| ==> allocOk[k]) && 0 !in Flatten(chunks) {
      TerminatedReadsBack(chunk.memory[..], chunk.size);
    }
  }

  /** The transfer with the corrected buffer: whatever arrives, the buffer stays
      terminated, and a complete reply without NUL bytes reads back exactly. */
  method Receive(chunks: seq<seq<byte>>, allocOk: seq<bool>) returns (complete: bool, text: Option<seq<byte>>)
    requires |allocOk| == |chunks|
    ensures (forall k :: 0 <= k < |chunks| ==> allocOk[k]) ==> complete
    ensures complete ==> text.Some? && text.value <= Flatten(chunks)
    ensures complete && 0 !in Flatten(chunks) ==> text == Some(Flatten(chunks))
  {
    var chunk := new MemoryStruct.Zeroed();
    var i := 0;
    while i < |chunks|
      invariant 0 <= i <= |chunks|
      invariant fresh(chunk) && fresh(chunk.memory) && chunk.Valid() && chunk.Terminated()
      invariant chunk.Contents() == Flatten(chunks[..i])
    {
      var w := chunk.WriteMemoryCallback(chunks[i], 1, |chunks[i]|, allocOk[i]);
      if w != |chunks[i]| {
        return false, None;
      }
      assert chunks[..i + 1][..i] == chunks[..i];
      i := i + 1;
    }
    assert chunks[..i] == chunks;
    complete := true;
    text := CString(chunk.memory[..]);
    assert chunk.memory[..][..chunk.size] == Flatten(chunks);
    if 0 !in Flatten(chunks) {
      TerminatedReadsBack(chunk.memory[..], chunk.size);
    }
  }
}
