/**
 GridFS files: a writer that cuts a stream into numbered chunks, and a reader that serves a byte
 string from them through a buffer and a prefetched chunk.
 */
module GridFs {
  import opened Octets

  function Min(a: int, b: int): int { if a < b then a else b }

  // ---------------------------------------------------------------------------------------
  // How a byte string is cut

  function Split(data: seq<Byte>, size: nat): seq<seq<Byte>>
    requires size > 0
  {
    if |data| <= size then if data == [] then [] else [data]
    else [data[..size]] + Split(data[size..], size)
  }

  function Join(chunks: seq<seq<Byte>>): seq<Byte> {
    if chunks == [] then [] else chunks[0] + Join(chunks[1..])
  }

  lemma {:induction false} JoinAppend(chunks: seq<seq<Byte>>, last: seq<Byte>)
    ensures Join(chunks + [last]) == Join(chunks) + last
  {
    if chunks == [] {
      assert (chunks + [last])[1..] == [];
    } else {
      assert (chunks + [last])[1..] == chunks[1..] + [last];
      JoinAppend(chunks[1..], last);
      assert chunks[0] + (Join(chunks[1..]) + last) == chunks[0] + Join(chunks[1..]) + last;
    }
  }

  ghost predicate AllFull(chunks: seq<seq<Byte>>, size: nat) {
    forall k :: 0 <= k < |chunks| ==> |chunks[k]| == size
  }

  /** Full chunks and a last one are the only way to cut their contents. */
  lemma {:induction false} SplitOfJoin(chunks: seq<seq<Byte>>, rest: seq<Byte>, size: nat)
    requires size > 0 && AllFull(chunks, size) && |rest| <= size
    ensures Split(Join(chunks) + rest, size) == chunks + if rest == [] then [] else [rest]
  {
    if chunks == [] {
      assert Join(chunks) + rest == rest;
    } else {
      var data, tail := Join(chunks) + rest, Join(chunks[1..]) + rest;
      SplitOfJoin(chunks[1..], rest, size);
      assert data == chunks[0] + tail;
      assert data[..size] == chunks[0] && data[size..] == tail;
      if |data| <= size {
        assert tail == [] && data == chunks[0];
        SplitEmpty(chunks[1..], rest, size);
      }
      assert chunks == [chunks[0]] + chunks[1..];
    }
  }

  lemma JoinNonEmpty(chunks: seq<seq<Byte>>)
    requires chunks != []
    ensures |Join(chunks)| >= |chunks[0]|
  {
  }

  lemma SplitEmpty(chunks: seq<seq<Byte>>, rest: seq<Byte>, size: nat)
    requires size > 0 && AllFull(chunks, size) && Join(chunks) + rest == []
    ensures chunks == [] && rest == []
  {
    assert |Join(chunks)| == 0;
    if chunks != [] { JoinNonEmpty(chunks); }
  }

  /** Where chunk n starts. */
  function Start(n: int, size: nat): int { n * size }

  function ChunkOf(offset: nat, size: nat): nat
    requires size > 0
  {
    offset / size
  }

  predicate OnBorder(offset: nat, size: nat)
    requires size > 0
  {
    offset % size == 0
  }

  lemma StartStep(n: nat, size: nat)
    ensures Start(0, size) == 0 && Start(n, size) >= 0 && Start(n + 1, size) == Start(n, size) + size
  {
    assert (n + 1) * size == n * size + size;
  }

  /** Chunk number n holds the bytes from its start on. */
  lemma {:induction false} SplitChunk(data: seq<Byte>, size: nat, n: nat)
    requires size > 0
    ensures n < |Split(data, size)| <==> Start(n, size) < |data|
    ensures Start(n, size) < |data| ==> Split(data, size)[n] == data[Start(n, size)..Min(Start(n + 1, size), |data|)]
  {
    hide Start;
    StartStep(n, size);
    if n > 0 {
      StartStep(n - 1, size);
      if |data| > size {
        var tail := data[size..];
        SplitChunk(tail, size, n - 1);
        if Start(n, size) < |data| {
          assert tail[Start(n - 1, size)..Min(Start(n, size), |tail|)] ==
                 data[Start(n, size)..Min(Start(n + 1, size), |data|)];
        }
      } else {
        StartAtLeast(n, size);
      }
    } else if 0 < |data| <= size {
      assert data[0..|data|] == data;
    }
  }

  lemma StartAtLeast(n: nat, size: nat)
    requires n > 0
    ensures Start(n, size) >= size
  {
    assert n * size == size + (n - 1) * size;
  }

  // ---------------------------------------------------------------------------------------
  // Writing

  class Writer {
    const chunkSize: nat
    var length: nat
    var chunk: nat
    var wbuf: seq<Byte>
    /** The chunks inserted so far; number n is at n. */
    var chunks: seq<seq<Byte>>

    constructor (chunkSize: nat)
      requires chunkSize > 0
      ensures Valid() && Written() == [] && this.chunkSize == chunkSize
    {
      this.chunkSize, length, chunk, wbuf, chunks := chunkSize, 0, 0, [], [];
    }

    ghost predicate Valid()
      reads this
    {
      && chunkSize > 0 && |wbuf| <= chunkSize
      && chunk == |chunks| && AllFull(chunks, chunkSize)
      && length == |Written()|
    }

    /** Everything written so far. */
    ghost function Written(): seq<Byte>
      reads this
    {
      Join(chunks) + wbuf
    }

    method InsertChunk(data: seq<Byte>)
      requires chunk == |chunks|
      modifies this`chunk, this`chunks
      ensures chunk == |chunks| && chunks == old(chunks) + [data]
    {
      chunk := chunk + 1;
      chunks := chunks + [data];
    }

    method Write(data: seq<Byte>) returns (n: nat)
      requires Valid()
      modifies this
      ensures Valid() && n == |data| && Written() == old(Written()) + data
    {
      hide Join;
      n := |data|;
      length := length + n;
      if |wbuf| + |data| < chunkSize {
        wbuf := wbuf + data;
        assert Written() == old(Written()) + data;
        return;
      }
      var rest := data;
      if |wbuf| > 0 {
        var missing := chunkSize - |wbuf|;
        if missing > |rest| { missing := |rest|; }
        wbuf := wbuf + rest[..missing];
        rest := rest[missing..];
        InsertChunk(wbuf);
        JoinAppend(old(chunks), wbuf);
        wbuf := [];
      }
      assert Join(chunks) + rest == old(Written()) + data;
      while |rest| > chunkSize
        invariant wbuf == [] && chunk == |chunks| && AllFull(chunks, chunkSize)
        invariant length == old(length) + |data|
        invariant Join(chunks) + rest == old(Written()) + data
      {
        var size := chunkSize;
        if size > |rest| { size := |rest|; }
        ghost var before := chunks;
        InsertChunk(rest[..size]);
        JoinAppend(before, rest[..size]);
        assert rest == rest[..size] + rest[size..];
        rest := rest[size..];
      }
      wbuf := wbuf + rest;
    }

    /** Flushes: the chunks stored depend on the bytes written alone, not on the single writes. */
    method Close()
      requires Valid()
      modifies this
      ensures chunks == Split(old(Written()), chunkSize) && chunk == |chunks|
      ensures length == |old(Written())|
    {
      SplitOfJoin(chunks, wbuf, chunkSize);
      if |wbuf| > 0 {
        InsertChunk(wbuf);
        wbuf := [];
      }
    }
  }

  // ---------------------------------------------------------------------------------------
  // Reading

  datatype Option<T> = None | Some(value: T)

  /** A chunk read ahead: its number and what the fetch gave. */
  datatype Cached = Cached(n: int, data: Option<seq<Byte>>)

  datatype Whence = FromStart | FromCurrent | FromEnd

  /** `SlicePanic` stands for cutting the buffer at a negative place. */
  datatype ReadError = EndOfFile | PastEnd | NotFound | SlicePanic

  class Reader {
    const chunkSize: nat
    const chunks: seq<seq<Byte>>
    const length: nat
    var offset: int
    var chunk: int
    var rbuf: seq<Byte>
    var rcache: Option<Cached>

    constructor (chunks: seq<seq<Byte>>, length: nat, chunkSize: nat, ghost data: seq<Byte>)
      requires chunkSize > 0 && chunks == Split(data, chunkSize) && length == |data|
      ensures Valid(data) && offset == 0 && chunk == 0
      ensures this.chunks == chunks && this.length == length && this.chunkSize == chunkSize
    {
      this.chunks, this.length, this.chunkSize := chunks, length, chunkSize;
      offset, chunk, rbuf, rcache := 0, 0, [], None;
      StartStep(0, chunkSize);
    }

    /** The file holds `data`, and the buffer is what is left of the current chunk. */
    ghost predicate Valid(data: seq<Byte>)
      reads this
    {
      && chunkSize > 0 && chunks == Split(data, chunkSize) && length == |data|
      && 0 <= offset <= |data| && chunk >= 0
      && offset + |rbuf| == Min(Start(chunk, chunkSize), |data|)
      && rbuf == data[offset..offset + |rbuf|]
      && (rcache.Some? ==> rcache.value.data == Fetched(rcache.value.n))
    }

    /** What the database answers for chunk n. */
    function Fetched(n: int): Option<seq<Byte>> {
      if 0 <= n < |chunks| then Some(chunks[n]) else None
    }

    /** The next chunk, from the cache or the database, and the one after it into the cache. */
    method GetChunk(ghost data: seq<Byte>) returns (r: Option<seq<Byte>>)
      requires chunkSize > 0 && chunks == Split(data, chunkSize) && length == |data|
      requires rcache.Some? ==> rcache.value.data == Fetched(rcache.value.n)
      modifies this`chunk, this`rcache
      ensures chunk == old(chunk) + 1
      ensures rcache.Some? ==> rcache.value.data == Fetched(rcache.value.n)
      ensures r == Fetched(old(chunk))
      ensures old(chunk) >= 0 ==> (r.Some? <==> Start(old(chunk), chunkSize) < |data|)
      ensures old(chunk) >= 0 && r.Some? ==>
        r.value == data[Start(old(chunk), chunkSize)..Min(Start(chunk, chunkSize), |data|)]
    {
      var cache := rcache;
      rcache := None;
      if chunk >= 0 { SplitChunk(data, chunkSize, chunk); }
      if cache.Some? && cache.value.n == chunk {
        r := cache.value.data;
      } else {
        r := Fetched(chunk);
      }
      chunk := chunk + 1;
      if Start(chunk, chunkSize) < length {
        rcache := Some(Cached(chunk, Fetched(chunk)));
      }
    }

    /**
     Reads as from the byte string itself: as much as fits and is there, with the end of file
     reported only where nothing is left.
     */
    method Read(b: array<Byte>, ghost data: seq<Byte>) returns (n: nat, error: Option<ReadError>)
      requires Valid(data)
      modifies this, b
      ensures Valid(data)
      ensures n == if old(offset) == |data| then 0 else Min(b.Length, |data| - old(offset))
      ensures error == if old(offset) == |data| then Some(EndOfFile) else None
      ensures offset == old(offset) + n
      ensures Delivered(b[..], old(b[..]), data, old(offset), n)
    {
      hide Start, Split, Delivered;
      n, error := 0, None;
      NothingDelivered(b[..], data, offset);
      if offset == length { return 0, Some(EndOfFile); }
      ghost var from, before := offset, b[..];
      while true
        invariant Valid(data) && error == None
        invariant n <= b.Length && offset == from + n < |data|
        invariant n == b.Length ==> n == 0
        invariant Delivered(b[..], before, data, from, n)
        decreases |data| - offset, if rbuf == [] then 1 else 0
      {
        var i := Deliver(b, n, data, before, from);
        n := n + i;
        if n == b.Length || offset == length { break; }
        StartStep(chunk, chunkSize);
        var next := GetChunk(data);
        rbuf := next.value;
      }
    }

    /** Moves what fits from the chunk buffer to the caller's buffer. */
    method Deliver(b: array<Byte>, n: nat, ghost data: seq<Byte>, ghost before: seq<Byte>, ghost from: int)
      returns (i: nat)
      requires Valid(data) && n <= b.Length && offset == from + n && Delivered(b[..], before, data, from, n)
      modifies this`offset, this`rbuf, b
      ensures Valid(data) && i == Min(|old(rbuf)|, b.Length - n)
      ensures offset == from + n + i && rbuf == old(rbuf)[i..]
      ensures Delivered(b[..], before, data, from, n + i)
    {
      hide Start, Split, Delivered;
      i := if |rbuf| < b.Length - n then |rbuf| else b.Length - n;
      ghost var now := b[..];
      DeliveredLength(now, before, data, from, n);
      Fill(b, n, rbuf[..i]);
      TakeFrom(data, offset, rbuf, i);
      MoreDelivered(b[..], now, before, data, from, n, rbuf[..i]);
      offset := offset + i;
      rbuf := rbuf[i..];
    }

    /** Copies `s` into the buffer at `at`. */
    method Fill(b: array<Byte>, at: nat, s: seq<Byte>)
      requires at + |s| <= b.Length
      modifies b
      ensures b[..] == old(b[..])[..at] + s + old(b[..])[at + |s|..]
    {
      for k := 0 to |s|
        invariant forall j :: 0 <= j < b.Length ==>
          b[j] == if at <= j < at + k then s[j - at] else old(b[j])
      {
        b[at + k] := s[k];
      }
    }

    /** The position that a distance means. */
    function Target(distance: int, whence: Whence): int
      reads this
    {
      match whence
      case FromStart => distance
      case FromCurrent => distance + offset
      case FromEnd => distance + length
    }

    /**
     Moves to the target of `distance`. An error comes back exactly past the end, where nothing
     moves, at an end that falls on a chunk border when the position is not already in the chunk
     after the last, and before the start of the file, which nothing checks: there the position is
     left outside the file, and less than a chunk before a file that is not empty the buffer is cut
     at a negative place.
     */
    method Seek(distance: int, whence: Whence, ghost data: seq<Byte>) returns (error: Option<ReadError>)
      requires Valid(data)
      modifies this
      ensures old(Target(distance, whence)) >= 0 ==> Valid(data)
      ensures error == Some(PastEnd) <==> old(Target(distance, whence)) > |data|
      ensures error == Some(PastEnd) ==> unchanged(this)
      ensures old(Target(distance, whence)) <= |data| ==> offset == old(Target(distance, whence))
      ensures error == Some(SlicePanic) <==>
        old(Target(distance, whence)) < 0 < old(Target(distance, whence)) + chunkSize && |data| > 0
      ensures error == Some(NotFound) <==>
        || old(EndUnreachable(Target(distance, whence)))
        || (old(Target(distance, whence)) < 0 && error != Some(SlicePanic))
    {
      hide EndUnreachable;
      var target := Target(distance, whence);
      OnlyAtEnd(target);
      if target > length { return Some(PastEnd); }
      if target < 0 {
        error := MoveBefore(target, data);
      } else {
        error := MoveTo(target, data);
      }
    }

    /** What the code does with a negative target, with division truncated towards zero. */
    method MoveBefore(target: int, ghost data: seq<Byte>) returns (error: Option<ReadError>)
      requires Valid(data) && target < 0
      modifies this
      ensures offset == target
      ensures error == Some(if -target < chunkSize && |data| > 0 then SlicePanic else NotFound)
    {
      offset := target;
      chunk := -(-target / chunkSize);
      rbuf := [];
      if -target < chunkSize {
        SmallQuotient(-target, chunkSize);
      } else {
        LargeQuotient(-target, chunkSize);
      }
      SplitEmptyIff(data, chunkSize);
      var next := GetChunk(data);
      if next.None? { return Some(NotFound); }
      error := Some(SlicePanic);
    }

    /** The end of the file, on a chunk border, from outside the chunk that would follow. */
    ghost predicate EndUnreachable(target: int)
      requires chunkSize > 0
      reads this
    {
      && target == length && OnBorder(length, chunkSize)
      && !(ChunkOf(length, chunkSize) + 1 == chunk && target >= offset)
    }

    lemma OnlyAtEnd(target: int)
      requires chunkSize > 0
      ensures target != length ==> !EndUnreachable(target)
    {
    }

    method MoveTo(target: nat, ghost data: seq<Byte>) returns (error: Option<ReadError>)
      requires Valid(data) && target <= |data|
      modifies this
      ensures Valid(data) && offset == target
      ensures error == if old(EndUnreachable(target)) then Some(NotFound) else None
    {
      hide Split, Start, ChunkOf, OnBorder;
      var c := ChunkOf(target, chunkSize);
      QuotientBounds(target, chunkSize);
      StartStep(c, chunkSize);
      if c + 1 == chunk && target >= offset {
        TakeFrom(data, offset, rbuf, target - offset);
        rbuf := rbuf[target - offset..];
        offset := target;
        return None;
      }
      error := Fetch(target, c, data);
    }

    /** Moves into chunk `c`, which holds the target. */
    method Fetch(target: nat, c: nat, ghost data: seq<Byte>) returns (error: Option<ReadError>)
      requires Valid(data) && target <= |data| && c == ChunkOf(target, chunkSize)
      modifies this
      ensures Valid(data) && offset == target
      ensures error == if target == |data| && OnBorder(target, chunkSize) then Some(NotFound) else None
    {
      hide Split, Start, ChunkOf, OnBorder;
      QuotientBounds(target, chunkSize);
      StartStep(c, chunkSize);
      offset := target;
      chunk := c;
      rbuf := [];
      var next := GetChunk(data);
      MissingAtBorder(target, chunkSize, |data|);
      if next.None? { return Some(NotFound); }
      TakeFrom(data, Start(c, chunkSize), next.value, target - Start(c, chunkSize));
      rbuf := next.value[target - Start(c, chunkSize)..];
      error := None;
    }
  }

  lemma SmallQuotient(n: nat, d: nat)
    requires n < d
    ensures n / d == 0
  {
  }

  lemma LargeQuotient(n: nat, d: nat)
    requires 0 < d <= n
    ensures n / d > 0
  {
  }

  lemma SplitEmptyIff(data: seq<Byte>, size: nat)
    requires size > 0
    ensures Split(data, size) == [] <==> data == []
  {
  }

  /** A new reader of an empty file: seeking to its start, which is its end, fails. */
  method SeekInEmptyFile(chunkSize: nat) returns (error: Option<ReadError>)
    requires chunkSize > 0
    ensures error == Some(NotFound)
  {
    var reader := new Reader([], 0, chunkSize, []);
    error := reader.Seek(0, FromStart, []);
  }

  /** A file of one byte: seeking to one byte before its start cuts the buffer at a negative place. */
  method SeekBeforeStart(chunkSize: nat, byte: Byte) returns (error: Option<ReadError>)
    requires chunkSize > 1
    ensures error == Some(SlicePanic)
  {
    var reader := new Reader([[byte]], 1, chunkSize, [byte]);
    error := reader.Seek(-1, FromStart, [byte]);
  }

  lemma TakeFrom(data: seq<Byte>, offset: nat, rbuf: seq<Byte>, i: nat)
    requires offset + |rbuf| <= |data| && rbuf == data[offset..offset + |rbuf|] && i <= |rbuf|
    ensures rbuf[..i] == data[offset..offset + i]
    ensures rbuf[i..] == data[offset + i..offset + |rbuf|]
  {
  }

  /** The buffer holds n bytes of `data`, from `from` on, and what it held before after them. */
  ghost predicate Delivered(now: seq<Byte>, before: seq<Byte>, data: seq<Byte>, from: int, n: nat) {
    && n <= |before| && 0 <= from && from + n <= |data|
    && now == data[from..from + n] + before[n..]
  }

  lemma NothingDelivered(before: seq<Byte>, data: seq<Byte>, from: nat)
    requires from <= |data|
    ensures Delivered(before, before, data, from, 0)
  {
  }

  lemma DeliveredLength(now: seq<Byte>, before: seq<Byte>, data: seq<Byte>, from: int, n: nat)
    requires Delivered(now, before, data, from, n)
    ensures |now| == |before| && from >= 0
  {
  }

  lemma MoreDelivered(after: seq<Byte>, now: seq<Byte>, before: seq<Byte>, data: seq<Byte>, from: int, n: nat,
      s: seq<Byte>)
    requires Delivered(now, before, data, from, n) && n + |s| <= |before|
    requires from + n + |s| <= |data| && s == data[from + n..from + n + |s|]
    requires after == now[..n] + s + now[n + |s|..]
    ensures Delivered(after, before, data, from, n + |s|)
  {
    assert data[from..from + n] + s == data[from..from + n + |s|];
  }

  lemma QuotientBounds(n: nat, size: nat)
    requires size > 0
    ensures Start(ChunkOf(n, size), size) <= n < Start(ChunkOf(n, size) + 1, size)
    ensures Start(ChunkOf(n, size) + 1, size) == Start(ChunkOf(n, size), size) + size
  {
    assert (n / size + 1) * size == n / size * size + size;
    assert n == n / size * size + n % size;
  }

  /** The chunk of a position within the file is missing only at an end on a chunk border. */
  lemma MissingAtBorder(target: nat, size: nat, length: nat)
    requires size > 0 && target <= length
    ensures Start(ChunkOf(target, size), size) >= length <==> target == length && OnBorder(target, size)
  {
    assert target == target / size * size + target % size;
  }
}
