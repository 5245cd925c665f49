/** The streaming reader (src/reader.rs): chunks of any size fed through a 64-byte ring read like one
    flat byte sequence, under nested limits. */
module Reader {
  import opened Values
  import opened Numbers
  import opened Ring
  import opened Leb128

  const RING: nat := 64

  datatype Error = Eof | MalformedInteger | MalformedSectionSize | ExpectedTerminal(byte: U8)

  /** A buffer on loan from the stream. */
  datatype Chunk = Chunk(id: nat, bytes: seq<U8>)

  ghost function Concat(chunks: seq<seq<U8>>): seq<U8> {
    if chunks == [] then [] else chunks[0] + Concat(chunks[1..])
  }

  /** The first `n` loans. */
  function Loans(n: nat): seq<nat> { seq(n, i requires 0 <= i < n => i) }

  /** The source of the bytes (`WasmStream`): it hands out chunks and takes them back. */
  class Stream {
    var pending: seq<seq<U8>>
    var given: nat
    var returned: seq<nat>

    constructor (chunks: seq<seq<U8>>)
      ensures pending == chunks && given == 0 && returned == []
    {
      pending, given, returned := chunks, 0, [];
    }

    method Read() returns (chunk: Option<Chunk>)
      modifies this
      ensures returned == old(returned)
      ensures old(pending) == [] ==> chunk.None? && pending == [] && given == old(given)
      ensures old(pending) != [] ==>
                && chunk == Some(Chunk(old(given), old(pending)[0])) && pending == old(pending)[1..]
                && given == old(given) + 1
    {
      if pending == [] { return None; }
      chunk := Some(Chunk(given, pending[0]));
      pending, given := pending[1..], given + 1;
    }

    method TakeBack(chunk: Chunk)
      modifies this
      ensures returned == old(returned) + [chunk.id] && pending == old(pending) && given == old(given)
    {
      returned := returned + [chunk.id];
    }
  }

  // ----- the flat reader -----

  /** Reading from one flat sequence: what is left of it, how much was read, and how far reads may go. */
  datatype Flat = Flat(rest: seq<U8>, offset: nat, limit: nat)

  /** The bytes that may still be read. */
  function Avail(f: Flat): seq<U8> {
    if f.limit <= f.offset then []
    else if f.limit - f.offset < |f.rest| then f.rest[..f.limit - f.offset]
    else f.rest
  }

  function Skip(f: Flat, k: nat): Flat
    requires k <= |f.rest|
  {
    Flat(f.rest[k..], f.offset + k, f.limit)
  }

  /** The bytes that may be read are those that are left, up to the limit and no fewer. */
  lemma AvailExactly(f: Flat, k: nat)
    ensures k < |Avail(f)| <==> k < |f.rest| && f.offset + k < f.limit
    ensures k < |Avail(f)| ==> Avail(f)[k] == f.rest[k]
  {
  }

  lemma AvailSkip(f: Flat, k: nat)
    requires k <= |Avail(f)|
    ensures Avail(Skip(f, k)) == Avail(f)[k..]
  {
  }

  lemma SkipTwice(f: Flat, a: nat, b: nat)
    requires a + b <= |f.rest|
    ensures Skip(Skip(f, a), b) == Skip(f, a + b)
  {
    assert f.rest[a..][b..] == f.rest[a + b..];
  }

  lemma Regroup(bytes: seq<U8>, from: nat, count: nat, pending: seq<U8>)
    requires from + count <= |bytes|
    ensures bytes[from..from + count] + (bytes[from + count..] + pending) == bytes[from..] + pending
  {
    assert bytes[from..] == bytes[from..from + count] + bytes[from + count..];
  }

  lemma TakeFirst(front: seq<U8>, behind: seq<U8>)
    requires front != []
    ensures (front + behind)[1..] == front[1..] + behind
  {
  }

  /** What reading an integer comes to. */
  predicate Integer(r: Result<int, Error>, want: Leb, was: Flat, now: Flat) {
    match want
    case Found(v, k) => k <= |was.rest| && r == Ok(v) && now == Skip(was, k)
    case Short => r == Err(Eof) && now == Skip(was, |Avail(was)|)
    case Malformed(k) => k <= |was.rest| && r == Err(MalformedInteger) && now == Skip(was, k)
  }

  // ----- programs of reads -----

  datatype Item = Byte | U32 | I32 | I64 | Expect(byte: U8)

  /** A program of reads, parts of it under a limit. What is done next depends on the value just read, or
      on all that was read under the limit; a value that has no entry ends the program. */
  datatype Script =
    | Finish
    | Read(item: Item, next: imap<int, Script>)
    | Limited(len: nat, body: Script, behind: imap<seq<int>, Script>)

  /** What a program of reads comes to: the values read, the error that ended it, and what is left. */
  datatype Outcome = Outcome(log: seq<int>, error: Option<Error>, after: Flat)

  function OfLeb(f: Flat, r: Leb): Outcome
    requires !r.Short? ==> r.length <= |f.rest|
  {
    match r
    case Found(v, k) => Outcome([v], None, Skip(f, k))
    case Short => AvailWithin(f); Outcome([], Some(Eof), Skip(f, |Avail(f)|))
    case Malformed(k) => Outcome([], Some(MalformedInteger), Skip(f, k))
  }

  /** One read on the flat sequence. */
  function FlatItem(item: Item, f: Flat): Outcome {
    AvailWithin(f);
    match item
    case Byte => if Avail(f) == [] then Outcome([], Some(Eof), f) else Outcome([Avail(f)[0]], None, Skip(f, 1))
    case U32 => OfLeb(f, Unsigned(32, Avail(f)))
    case I32 => OfLeb(f, Signed(32, Avail(f)))
    case I64 => OfLeb(f, Signed(64, Avail(f)))
    case Expect(b) =>
      if f.rest == [] then Outcome([], Some(Eof), f)
      else if f.rest[0] != b then Outcome([], Some(ExpectedTerminal(b)), f)
      else if Avail(f) == [] then Outcome([], Some(Eof), f)
      else Outcome([], None, Skip(f, 1))
  }

  /** The value of a read; a byte that was expected has none. */
  function ValueOf(log: seq<int>): int { if log == [] then 0 else log[0] }

  function Then(first: Outcome, rest: Outcome): Outcome { rest.(log := first.log + rest.log) }

  /** A program of reads on one flat sequence; `max` is the largest offset there is. */
  function FlatRun(script: Script, f: Flat, max: nat): Outcome
    decreases script
  {
    match script
    case Finish => Outcome([], None, f)
    case Read(item, next) =>
      var r := FlatItem(item, f);
      var v := ValueOf(r.log);
      if r.error.Some? || v !in next then r else Then(r, FlatRun(next[v], r.after, max))
    case Limited(len, body, next) =>
      if f.offset + len > max || f.offset + len > f.limit then Outcome([], Some(MalformedSectionSize), f)
      else
        var inner := FlatRun(body, f.(limit := f.offset + len), max);
        var r := inner.(after := inner.after.(limit := f.limit));
        if r.error.Some? || r.log !in next then r else Then(r, FlatRun(next[r.log], r.after, max))
  }

  /** `g` is `f` after some reads within its limit. */
  predicate Kept(f: Flat, g: Flat) {
    && g.limit == f.limit && f.offset <= g.offset <= f.limit
    && g.offset - f.offset <= |f.rest| && g.rest == f.rest[g.offset - f.offset..]
  }

  lemma KeptTwice(f: Flat, g: Flat, h: Flat)
    requires Kept(f, g) && Kept(g, h)
    ensures Kept(f, h)
  {
    SkipTwice(f, g.offset - f.offset, h.offset - g.offset);
  }

  lemma KeptInside(f: Flat, end: nat, g: Flat)
    requires f.offset <= end <= f.limit && Kept(f.(limit := end), g)
    ensures Kept(f, g.(limit := f.limit))
  {
  }

  lemma KeptLimit(f: Flat, g: Flat)
    requires Kept(f, g)
    ensures g.offset <= f.limit
  {
  }

  lemma KeptBounds(f: Flat, g: Flat)
    requires Kept(f, g)
    ensures g.offset <= g.limit
  {
  }

  /** Reads never pass the innermost limit, the limit is the same again afterwards, on success and on
      error, and what was consumed is what the offset has moved by. */
  lemma {:induction false} LimitKept(script: Script, f: Flat, max: nat)
    requires f.offset <= f.limit
    ensures Kept(f, FlatRun(script, f, max).after)
    decreases script
  {
    hide FlatItem, Kept, FlatRun;
    if script.Finish? {
      SkipKept(f, 0);
      FinishRun(f, max);
    } else if script.Read? {
      ItemKept(script.item, f);
      var r := FlatItem(script.item, f);
      var v := ValueOf(r.log);
      KeptBounds(f, r.after);
      if v in script.next && r.error.None? { LimitKept(script.next[v], r.after, max); }
      ReadKept(script.item, script.next, f, max);
    } else {
      SkipKept(f, 0);
      var end := f.offset + script.len;
      if end <= max && end <= f.limit {
        LimitKept(script.body, f.(limit := end), max);
        var inner := FlatRun(script.body, f.(limit := end), max);
        var g := inner.after.(limit := f.limit);
        KeptInside(f, end, inner.after);
        KeptBounds(f, g);
        if inner.log in script.behind && inner.error.None? { LimitKept(script.behind[inner.log], g, max); }
      }
      LimitedKept(script.len, script.body, script.behind, f, max);
    }
  }

  predicate IsByte(v: int) { 0 <= v < 0x100 }

  /** The program that reads `n` single bytes. */
  ghost function ReadBytes(n: nat): Script {
    if n == 0 then Finish else Read(Byte, imap v: int | IsByte(v) :: ReadBytes(n - 1))
  }

  function Least(a: int, b: int): int { if a < b then a else b }

  /** Single reads give the bytes one by one, as many as are left within the limit. */
  lemma {:induction false} BytesRun(n: nat, f: Flat, max: nat)
    requires f.offset <= f.limit
    ensures var k := Least(n, Least(f.limit - f.offset, |f.rest|));
            FlatRun(ReadBytes(n), f, max)
            == Outcome(f.rest[..k], if k == n then None else Some(Eof), Flat(f.rest[k..], f.offset + k, f.limit))
  {
    hide FlatRun, ReadBytes, Avail;
    var k := Least(n, Least(f.limit - f.offset, |f.rest|));
    if k == 0 {
      NoByte(n, f, max);
    } else {
      var g := Flat(f.rest[1..], f.offset + 1, f.limit);
      FirstByte(n, f, max);
      BytesRun(n - 1, g, max);
      assert f.rest[..k] == [f.rest[0]] + g.rest[..k - 1];
      assert f.rest[k..] == g.rest[k - 1..];
    }
  }

  lemma NoByte(n: nat, f: Flat, max: nat)
    requires f.offset <= f.limit && (n == 0 || f.offset == f.limit || f.rest == [])
    ensures FlatRun(ReadBytes(n), f, max) == Outcome([], if n == 0 then None else Some(Eof), f)
  {
    if n > 0 {
      AvailExactly(f, 0);
      hide Avail;
      var r := FlatItem(Byte, f);
      assert r == Outcome([], Some(Eof), f);
    }
  }

  lemma FirstByte(n: nat, f: Flat, max: nat)
    requires n > 0 && f.offset < f.limit && f.rest != []
    ensures FlatRun(ReadBytes(n), f, max)
         == Then(Outcome([f.rest[0]], None, Skip(f, 1)),
                 FlatRun(ReadBytes(n - 1), Flat(f.rest[1..], f.offset + 1, f.limit), max))
  {
    AvailExactly(f, 0);
    hide Avail;
    assert IsByte(f.rest[0]);
  }

  /** A limit of `n` is reached: with `n` bytes left, `n` single reads succeed under it and the next is the
      end; afterwards the old limit is back. */
  lemma LimitReached(n: nat, m: nat, f: Flat, max: nat)
    requires f.offset + n <= max && f.offset + n <= f.limit && n <= |f.rest|
    ensures var k := Least(m, n);
            FlatRun(Limited(n, ReadBytes(m), imap[]), f, max)
            == Outcome(f.rest[..k], if m <= n then None else Some(Eof), Flat(f.rest[k..], f.offset + k, f.limit))
  {
    BytesRun(m, f.(limit := f.offset + n), max);
  }

  lemma FinishRun(f: Flat, max: nat)
    ensures FlatRun(Finish, f, max).after == f
  {
  }

  lemma ReadKept(item: Item, next: imap<int, Script>, f: Flat, max: nat)
    requires Kept(f, FlatItem(item, f).after)
    requires var r := FlatItem(item, f);
             var v := ValueOf(r.log);
             r.error.None? && v in next ==> Kept(r.after, FlatRun(next[v], r.after, max).after)
    ensures Kept(f, FlatRun(Read(item, next), f, max).after)
  {
    hide FlatItem, Kept;
    var r := FlatItem(item, f);
    var v := ValueOf(r.log);
    if r.error.None? && v in next { KeptTwice(f, r.after, FlatRun(next[v], r.after, max).after); }
  }

  lemma LimitedKept(len: nat, body: Script, next: imap<seq<int>, Script>, f: Flat, max: nat)
    requires Kept(f, f)
    requires var end := f.offset + len;
             var inner := FlatRun(body, f.(limit := end), max);
             var g := inner.after.(limit := f.limit);
             end <= max && end <= f.limit ==>
               Kept(f, g) && (inner.error.None? && inner.log in next ==>
                   Kept(g, FlatRun(next[inner.log], g, max).after))
    ensures Kept(f, FlatRun(Limited(len, body, next), f, max).after)
  {
    hide FlatRun, Kept;
    var end := f.offset + len;
    LimitedAfter(len, body, next, f, max);
    if end <= max && end <= f.limit {
      var inner := FlatRun(body, f.(limit := end), max);
      var g := inner.after.(limit := f.limit);
      if inner.error.None? && inner.log in next { KeptTwice(f, g, FlatRun(next[inner.log], g, max).after); }
    }
  }

  lemma LimitedAfter(len: nat, body: Script, next: imap<seq<int>, Script>, f: Flat, max: nat)
    ensures var end := f.offset + len;
            var inner := FlatRun(body, f.(limit := end), max);
            var g := inner.after.(limit := f.limit);
            FlatRun(Limited(len, body, next), f, max).after ==
            if end > max || end > f.limit then f
            else if inner.error.Some? || inner.log !in next then g
            else FlatRun(next[inner.log], g, max).after
  {
    hide FlatItem;
  }

  lemma SkipKept(f: Flat, k: nat)
    requires k <= |Avail(f)| && f.offset <= f.limit
    ensures k <= |f.rest| && Kept(f, Skip(f, k))
    ensures Kept(f, f)
  {
    AvailWithin(f);
  }

  lemma ItemKept(item: Item, f: Flat)
    requires f.offset <= f.limit
    ensures Kept(f, FlatItem(item, f).after)
  {
    hide Unsigned, Signed, Skip, Kept;
    AvailWithin(f);
    SkipKept(f, 0);
    SkipKept(f, |Avail(f)|);
    if Avail(f) != [] { SkipKept(f, 1); }
    if item.U32? {
      LebKept(f, Unsigned(32, Avail(f)));
    } else if item.I32? {
      LebKept(f, Signed(32, Avail(f)));
    } else if item.I64? {
      LebKept(f, Signed(64, Avail(f)));
    }
  }

  lemma LebKept(f: Flat, r: Leb)
    requires f.offset <= f.limit && (!r.Short? ==> r.length <= |Avail(f)|)
    ensures !r.Short? ==> r.length <= |f.rest|
    ensures Kept(f, OfLeb(f, r).after)
  {
    hide Skip, Kept;
    AvailWithin(f);
    SkipKept(f, if r.Short? then |Avail(f)| else r.length);
  }

  class ByteReader {
    const stream: Stream
    var chunkUsed: nat
    var next: Option<Chunk>
    const buffer: CircularBuffer
    var fullOffset: nat
    var limit: nat
    /** `usize::MAX`. */
    const usizeMax: nat

    ghost predicate Valid()
      reads this, stream, buffer, buffer.items
    {
      && buffer.Valid() && buffer.items.Length == RING
      && fullOffset <= limit <= usizeMax
      && (next.Some? ==> chunkUsed <= |next.value.bytes| && next.value.id + 1 == stream.given)
      && stream.returned == Loans(if next.Some? then stream.given - 1 else stream.given)
      && (next.Some? ==> stream.given >= 1)
      && forall i :: 0 <= i < |stream.pending| ==> stream.pending[i] != []
    }

    /** What is left of the chunk on loan. */
    ghost function ChunkRest(): seq<U8>
      reads this
    {
      if next.Some? && chunkUsed <= |next.value.bytes| then next.value.bytes[chunkUsed..] else []
    }

    /** The bytes not yet in the ring. */
    ghost function Behind(): seq<U8>
      reads this, stream
    {
      ChunkRest() + Concat(stream.pending)
    }

    ghost function View(): Flat
      requires buffer.Valid()
      reads this, stream, buffer, buffer.items
    {
      Flat(buffer.Contents() + Behind(), fullOffset, limit)
    }

    constructor (stream: Stream, usizeMax: nat)
      requires stream.given == 0 && stream.returned == []
      requires forall i :: 0 <= i < |stream.pending| ==> stream.pending[i] != []
      ensures Valid() && this.stream == stream && fresh(buffer) && fresh(buffer.items)
      ensures View() == Flat(Concat(stream.pending), 0, usizeMax)
    {
      this.stream := stream;
      this.usizeMax := usizeMax;
      chunkUsed, next, fullOffset, limit := 0, None, 0, usizeMax;
      buffer := new CircularBuffer(RING);
      new;
      assert buffer.Contents() + Behind() == Concat(stream.pending);
    }

    /** Copy from the chunk on loan into the empty ring; nothing is overwritten. */
    method CopyChunk(count: nat)
      requires Valid() && next.Some? && buffer.Contents() == []
      requires count <= RING && chunkUsed + count <= |next.value.bytes|
      modifies this`chunkUsed, buffer, buffer.items
      ensures Valid() && View() == old(View()) && |buffer.Contents()| == count
    {
      hide Loans, Concat;
      ghost var (was, pending) := (ChunkRest(), Concat(stream.pending));
      Load(next.value.bytes, chunkUsed, count);
      Regroup(next.value.bytes, chunkUsed, count, Concat(stream.pending));
      chunkUsed := chunkUsed + count;
      assert buffer.Contents() + Behind() == was + pending == [] + (was + pending);
    }

    /** The copy loop. */
    method Load(bytes: seq<U8>, from: nat, count: nat)
      requires buffer.Valid() && buffer.items.Length == RING && buffer.Contents() == []
      requires count <= RING && from + count <= |bytes|
      modifies buffer, buffer.items
      ensures buffer.Valid() && buffer.Contents() == bytes[from..from + count]
    {
      for i := 0 to count
        invariant buffer.Valid() && buffer.Contents() == bytes[from..from + i]
      {
        buffer.Push(bytes[from + i]);
        assert bytes[from..from + i] + [bytes[from + i]] == bytes[from..from + (i + 1)];
      }
    }

    /** `fill_buffer`. */
    method FillBuffer() returns (r: Result<(), Error>)
      requires Valid()
      modifies this`chunkUsed, this`next, stream, buffer, buffer.items
      ensures Valid() && View() == old(View())
      ensures r == if View().rest == [] then Err(Eof) else Ok(())
      ensures r.Ok? ==> buffer.Contents() != []
    {
      if buffer.size != 0 { return Ok(()); }
      if next.Some? {
        var remaining := |next.value.bytes| - chunkUsed;
        if remaining > 0 {
          CopyChunk(if remaining < RING then remaining else RING);
          return Ok(());
        }
      }
      ReturnChunk();
      next := stream.Read();
      chunkUsed := 0;
      if next.None? { return Err(Eof); }
      var chunk := next.value.bytes;
      assert View() == old(View()) by { assert chunk[0..] == chunk; }
      if |chunk| == 0 { return Err(Eof); }
      CopyChunk(if |chunk| < RING then |chunk| else RING);
      r := Ok(());
    }

    /** Give a used-up chunk back. */
    method ReturnChunk()
      requires Valid() && ChunkRest() == []
      modifies this`next, this`chunkUsed, stream
      ensures Valid() && next.None? && View() == old(View()) && stream.pending == old(stream.pending)
    {
      if next.Some? {
        stream.TakeBack(next.value);
        next, chunkUsed := None, 0;
        assert Loans(stream.given) == Loans(stream.given - 1) + [stream.given - 1];
      }
    }

    /** `peek_u8`: it does not look at the limit. */
    method PeekU8() returns (r: Result<U8, Error>)
      requires Valid()
      modifies this`chunkUsed, this`next, stream, buffer, buffer.items
      ensures Valid() && View() == old(View())
      ensures r == if View().rest == [] then Err(Eof) else Ok(View().rest[0])
      ensures r.Ok? ==> buffer.Contents() != []
    {
      var byte := buffer.Front();
      if byte.Some? { return Ok(byte.value); }
      var _ :- FillBuffer();
      byte := buffer.Front();
      r := Ok(byte.value);
    }

    /** `read_u8`. */
    method ReadU8() returns (r: Result<U8, Error>)
      requires Valid()
      modifies this`chunkUsed, this`next, this`fullOffset, stream, buffer, buffer.items
      ensures Valid() && limit == old(limit)
      ensures var f := old(View());
              if f.offset < f.limit && f.rest != [] then
                r == Ok(f.rest[0]) && View() == Flat(f.rest[1..], f.offset + 1, f.limit)
              else r == Err(Eof) && View() == f
      ensures Avail(old(View())) == [] ==> r == Err(Eof) && View() == old(View())
      ensures Avail(old(View())) != [] ==> r == Ok(Avail(old(View()))[0]) && View() == Skip(old(View()), 1)
    {
      if fullOffset >= limit { return Err(Eof); }
      var byte :- PeekU8();
      hide Loans, Concat;
      ghost var front := buffer.Contents();
      ghost var behind := Behind();
      TakeFirst(front, behind);
      var _ := buffer.PopFront();
      fullOffset := fullOffset + 1;
      r := Ok(byte);
    }

    /** `expect_u8`. */
    method ExpectU8(want: U8) returns (r: Result<(), Error>)
      requires Valid()
      modifies this`chunkUsed, this`next, this`fullOffset, stream, buffer, buffer.items
      ensures Valid() && limit == old(limit)
      ensures var f := old(View());
              if f.rest == [] then r == Err(Eof) && View() == f
              else if f.rest[0] != want then r == Err(ExpectedTerminal(want)) && View() == f
              else if f.offset >= f.limit then r == Err(Eof) && View() == f
              else r.Ok? && View() == Flat(f.rest[1..], f.offset + 1, f.limit) == Skip(f, 1)
    {
      var byte :- PeekU8();
      if byte != want { return Err(ExpectedTerminal(want)); }
      var _ :- ReadU8();
      r := Ok(());
    }

    /** One byte of an integer: its seven bits are added with the weight `unit`. */
    method Septet(acc: nat, unit: nat, ghost f: Flat, ghost k: nat) returns (r: Result<(nat, U8), Error>)
      requires Valid() && k <= |Avail(f)| && View() == Skip(f, k)
      modifies this`chunkUsed, this`next, this`fullOffset, stream, buffer, buffer.items
      ensures Valid() && limit == old(limit)
      ensures k == |Avail(f)| ==> r == Err(Eof) && View() == Skip(f, k)
      ensures k < |Avail(f)| ==>
                r == Ok((acc + unit * (Avail(f)[k] % 0x80), Avail(f)[k])) && View() == Skip(f, k + 1)
    {
      AvailSkip(f, k);
      if k < |Avail(f)| { SkipTwice(f, k, 1); }
      var byte :- ReadU8();
      MulNat(unit, byte % 0x80);
      r := Ok((acc + unit * (byte % 0x80), byte));
    }

    /** A byte of an unsigned integer that is not the last one allowed: the bits so far, and whether
        another byte follows. `want` is what reading the whole integer comes to. */
    method UnsignedSeptet(acc: nat, unit: nat, ghost want: Leb, ghost bits: nat, ghost f: Flat, ghost k: nat)
      returns (r: Result<(nat, bool), Error>)
      requires Valid() && k <= |Avail(f)| && View() == Skip(f, k) && bits > 7
      requires want == After(acc, unit, k, Unsigned(bits, Avail(f)[k..]))
      modifies this`chunkUsed, this`next, this`fullOffset, stream, buffer, buffer.items
      ensures Valid() && limit == old(limit)
      ensures r.Err? ==> r.error == Eof && want == Short && View() == Skip(f, |Avail(f)|)
      ensures r.Ok? ==> k + 1 <= |Avail(f)| && View() == Skip(f, k + 1)
      ensures r.Ok? && !r.value.1 ==> want == Found(r.value.0, k + 1)
      ensures r.Ok? && r.value.1 ==>
                want == After(r.value.0, 0x80 * unit, k + 1, Unsigned(bits - 7, Avail(f)[k + 1..]))
    {
      hide Skip, Avail, View, Unsigned;
      ghost var bs := Avail(f);
      ShortEnd(bs, k, bits);
      var s :- Septet(acc, unit, f, k);
      if s.1 < 0x80 {
        UnsignedLast(bits, acc, unit, k, bs);
        PowAtLeast(bits);
      } else {
        UnsignedMore(bits, acc, unit, k, bs);
      }
      r := Ok((s.0, s.1 >= 0x80));
    }

    /** `read_u32`. */
    method ReadU32() returns (r: Result<int, Error>)
      requires Valid()
      modifies this`chunkUsed, this`next, this`fullOffset, stream, buffer, buffer.items
      ensures Valid() && limit == old(limit)
      ensures Integer(r, Unsigned(32, Avail(old(View()))), old(View()), View())
    {
      hide Unsigned, Skip, Avail, View, After;
      ghost var f := View();
      ghost var want := Unsigned(32, Avail(f));
      Beginning(f, want);
      var r1 :- UnsignedSeptet(0, 1, want, 32, f, 0);
      if !r1.1 { return Ok(r1.0); }
      var r2 :- UnsignedSeptet(r1.0, 0x80, want, 25, f, 1);
      if !r2.1 { return Ok(r2.0); }
      var r3 :- UnsignedSeptet(r2.0, 0x4000, want, 18, f, 2);
      if !r3.1 { return Ok(r3.0); }
      var r4 :- UnsignedSeptet(r3.0, 0x20_0000, want, 11, f, 3);
      if !r4.1 { return Ok(r4.0); }
      ShortEnd(Avail(f), 4, 4);
      ShortAfter(r4.0, 0x1000_0000, 4);
      var r5 :- Septet(r4.0, 0x1000_0000, f, 4);
      var has_next_byte := r5.1 >= 0x80;
      var padding_bits_are_not_zero := r5.1 / 0x10 % 8 != 0;
      LastFour(Avail(f), r4.0);
      if has_next_byte || padding_bits_are_not_zero { return Err(MalformedInteger); }
      r := Ok(r5.0);
    }

    // ----- signed integers -----

    /** A byte of a signed integer that is not the last one allowed; the last byte read extends the
        sign, by a shift to the left and one back. */
    method SignedSeptet(acc: nat, unit: nat, width: nat, k: nat, ghost want: Leb, ghost f: Flat)
      returns (r: Result<(nat, Option<int>), Error>)
      requires Valid() && k <= |Avail(f)| && View() == Skip(f, k) && width > 7 * k + 7
      requires unit == Pow2(7 * k) && acc < unit
      requires want == After(acc, unit, k, Signed(width - 7 * k, Avail(f)[k..]))
      modifies this`chunkUsed, this`next, this`fullOffset, stream, buffer, buffer.items
      ensures Valid() && limit == old(limit)
      ensures r.Err? ==> r.error == Eof && want == Short && View() == Skip(f, |Avail(f)|)
      ensures r.Ok? ==> k + 1 <= |Avail(f)| && View() == Skip(f, k + 1)
      ensures r.Ok? && r.value.1.Some? ==> want == Found(r.value.1.value, k + 1)
      ensures r.Ok? && r.value.1.None? ==>
                && r.value.0 < 0x80 * unit == Pow2(7 * (k + 1))
                && want == After(r.value.0, 0x80 * unit, k + 1, Signed(width - 7 * (k + 1), Avail(f)[k + 1..]))
    {
      hide Skip, Avail, View, Signed, ShiftPair, Pow2;
      ghost var bs := Avail(f);
      SignedShortEnd(bs, k, width - 7 * k);
      ShortAfter(acc, unit, k);
      var s :- Septet(acc, unit, f, k);
      SeptetFits(acc, unit, s.1 % 0x80, k);
      if s.1 < 0x80 {
        SignedLast(width - 7 * k, acc, unit, k, bs);
        LastExtends(width, k, acc, s.1, unit);
        r := Ok((s.0, Some(ShiftPair(width, width - 7 * (k + 1), s.0))));
      } else {
        SignedMore(width - 7 * k, acc, unit, k, bs);
        r := Ok((s.0, None));
      }
    }

    /** `read_i32`. */
    method ReadI32() returns (r: Result<int, Error>)
      requires Valid()
      modifies this`chunkUsed, this`next, this`fullOffset, stream, buffer, buffer.items
      ensures Valid() && limit == old(limit)
      ensures Integer(r, Signed(32, Avail(old(View()))), old(View()), View())
    {
      hide Signed, Skip, Avail, View, After, Pow2, Wrap, CountOnes;
      ghost var f := View();
      ghost var want := Signed(32, Avail(f));
      Beginning(f, want);
      var r1 :- SignedSeptet(0, 1, 32, 0, want, f);
      if r1.1.Some? { return Ok(r1.1.value); }
      var r2 :- SignedSeptet(r1.0, 0x80, 32, 1, want, f);
      if r2.1.Some? { return Ok(r2.1.value); }
      var r3 :- SignedSeptet(r2.0, 0x4000, 32, 2, want, f);
      if r3.1.Some? { return Ok(r3.1.value); }
      var r4 :- SignedSeptet(r3.0, 0x20_0000, 32, 3, want, f);
      if r4.1.Some? { return Ok(r4.1.value); }
      SignedShortEnd(Avail(f), 4, 4);
      ShortAfter(r4.0, 0x1000_0000, 4);
      var r5 :- Septet(r4.0, 0x1000_0000, f, 4);
      var has_next_byte := r5.1 >= 0x80;
      var ones := CountOnes(r5.1 / 8 % 0x10);
      LastFourSigned(Avail(f), r4.0);
      if has_next_byte { return Err(MalformedInteger); }
      if ones != 4 && ones != 0 { return Err(MalformedInteger); }
      r := Ok(Wrap(32, r5.0));
    }

    /** `read_i64`. */
    method ReadI64() returns (r: Result<int, Error>)
      requires Valid()
      modifies this`chunkUsed, this`next, this`fullOffset, stream, buffer, buffer.items
      ensures Valid() && limit == old(limit)
      ensures Integer(r, Signed(64, Avail(old(View()))), old(View()), View())
    {
      hide Signed, Skip, Avail, View, After, Pow2, Wrap, CountOnes;
      ghost var f := View();
      ghost var want := Signed(64, Avail(f));
      Beginning(f, want);
      var r1 :- SignedSeptet(0, 1, 64, 0, want, f);
      if r1.1.Some? { return Ok(r1.1.value); }
      var r2 :- SignedSeptet(r1.0, 0x80, 64, 1, want, f);
      if r2.1.Some? { return Ok(r2.1.value); }
      var r3 :- SignedSeptet(r2.0, 0x4000, 64, 2, want, f);
      if r3.1.Some? { return Ok(r3.1.value); }
      var r4 :- SignedSeptet(r3.0, 0x20_0000, 64, 3, want, f);
      if r4.1.Some? { return Ok(r4.1.value); }
      var r5 :- SignedSeptet(r4.0, 0x1000_0000, 64, 4, want, f);
      if r5.1.Some? { return Ok(r5.1.value); }
      var r6 :- SignedSeptet(r5.0, 0x8_0000_0000, 64, 5, want, f);
      if r6.1.Some? { return Ok(r6.1.value); }
      var r7 :- SignedSeptet(r6.0, 0x400_0000_0000, 64, 6, want, f);
      if r7.1.Some? { return Ok(r7.1.value); }
      var r8 :- SignedSeptet(r7.0, 0x2_0000_0000_0000, 64, 7, want, f);
      if r8.1.Some? { return Ok(r8.1.value); }
      var r9 :- SignedSeptet(r8.0, 0x100_0000_0000_0000, 64, 8, want, f);
      if r9.1.Some? { return Ok(r9.1.value); }
      r := TenthByte(r9.0, f);
    }

    /** The last byte of `read_i64`. */
    method TenthByte(acc: nat, ghost f: Flat) returns (r: Result<int, Error>)
      requires Valid() && 9 <= |Avail(f)| && View() == Skip(f, 9) && acc < 0x8000_0000_0000_0000
      modifies this`chunkUsed, this`next, this`fullOffset, stream, buffer, buffer.items
      ensures Valid() && limit == old(limit)
      ensures Integer(r, After(acc, 0x8000_0000_0000_0000, 9, Signed(1, Avail(f)[9..])), f, View())
    {
      hide Signed, Skip, Avail, View, After, Pow2, Wrap, CountOnes;
      AvailWithin(f);
      SignedShortEnd(Avail(f), 9, 1);
      ShortAfter(acc, 0x8000_0000_0000_0000, 9);
      var r10 :- Septet(acc, 0x8000_0000_0000_0000, f, 9);
      var has_next_byte := r10.1 >= 0x80;
      var ones := CountOnes(r10.1 % 0x80);
      LastOneSigned(Avail(f), acc);
      if has_next_byte { return Err(MalformedInteger); }
      if ones != 7 && ones != 0 { return Err(MalformedInteger); }
      r := Ok(Wrap(64, r10.0));
    }

    // ----- limits -----

    /** The start of `with_limit`: the limit to go back to. */
    method EnterLimit(len: nat) returns (r: Result<nat, Error>)
      requires Valid()
      modifies this`limit
      ensures Valid()
      ensures var f := old(View());
              if f.offset + len > usizeMax || f.offset + len > f.limit then
                r == Err(MalformedSectionSize) && View() == f
              else r == Ok(f.limit) && View() == f.(limit := f.offset + len)
    {
      var new_limit := fullOffset + len;
      if new_limit > usizeMax || new_limit > limit { return Err(MalformedSectionSize); }
      r := Ok(limit);
      limit := new_limit;
    }

    /** The end of `with_limit`, whatever came of the part in between. */
    method LeaveLimit(prev: nat)
      requires Valid() && fullOffset <= prev <= usizeMax
      modifies this`limit
      ensures Valid() && View() == old(View()).(limit := prev)
    {
      limit := prev;
    }

    method ReadItem(item: Item) returns (log: seq<int>, error: Option<Error>)
      requires Valid()
      modifies this`chunkUsed, this`next, this`fullOffset, stream, buffer, buffer.items
      ensures Valid() && Outcome(log, error, View()) == FlatItem(item, old(View()))
    {
      hide Unsigned, Signed, Skip, Avail, View;
      log, error := [], None;
      AvailExactly(View(), 0);
      match item {
        case Byte =>
          var r := ReadU8();
          if r.Err? { error := Some(r.error); } else { log := [r.value]; }
        case U32 =>
          var r := ReadU32();
          if r.Err? { error := Some(r.error); } else { log := [r.value]; }
        case I32 =>
          var r := ReadI32();
          if r.Err? { error := Some(r.error); } else { log := [r.value]; }
        case I64 =>
          var r := ReadI64();
          if r.Err? { error := Some(r.error); } else { log := [r.value]; }
        case Expect(b) =>
          var r := ExpectU8(b);
          if r.Err? { error := Some(r.error); }
      }
    }

    /** Chunk independence: any program of reads under nested limits gives what it gives on the flat
        concatenation of the chunks; how the bytes were split plays no part. */
    method Perform(script: Script) returns (log: seq<int>, error: Option<Error>)
      requires Valid()
      modifies this`chunkUsed, this`next, this`fullOffset, this`limit, stream, buffer, buffer.items
      ensures Valid() && Outcome(log, error, View()) == FlatRun(script, old(View()), usizeMax)
      decreases script
    {
      hide FlatItem, View;
      ghost var f := View();
      ViewBounds();
      match script {
        case Finish =>
          log, error := [], None;
        case Read(item, next) =>
          log, error := ReadItem(item);
          if error.None? && ValueOf(log) in next {
            var more;
            more, error := Perform(next[ValueOf(log)]);
            log := log + more;
          }
        case Limited(len, body, next) =>
          var prev := EnterLimit(len);
          if prev.Err? { return [], Some(prev.error); }
          ghost var g := View();
          ViewBounds();
          LimitKept(body, g, usizeMax);
          KeptLimit(g, FlatRun(body, g, usizeMax).after);
          log, error := Perform(body);
          ViewBounds();
          LeaveLimit(prev.value);
          if error.None? && log in next {
            var more;
            more, error := Perform(next[log]);
            log := log + more;
          }
      }
    }

    lemma ViewBounds()
      requires Valid()
      ensures View().offset == fullOffset && View().limit == limit && fullOffset <= limit <= usizeMax
    {
    }

    /** `drop`: the chunk still on loan goes back, so that every chunk came back exactly once. */
    method Drop()
      requires Valid()
      modifies this`next, this`chunkUsed, stream
      ensures stream.returned == Loans(stream.given) && stream.pending == old(stream.pending)
    {
      if next.Some? {
        stream.TakeBack(next.value);
        next, chunkUsed := None, 0;
        assert Loans(stream.given) == Loans(stream.given - 1) + [stream.given - 1];
      }
    }
  }

  lemma AvailWithin(f: Flat)
    ensures |Avail(f)| <= |f.rest|
  {
  }

  lemma SkipNone(f: Flat)
    ensures Skip(f, 0) == f
  {
  }

  lemma PowAtLeast(bits: nat)
    requires bits >= 7
    ensures Pow2(bits) >= 0x80
  {
    PowSeven(bits);
    assert Pow2(bits - 7) >= 1;
  }

  /** The fifth byte of a 32-bit integer has four bits. */
  lemma LastFour(bs: seq<U8>, acc: int)
    requires |bs| >= 5
    ensures After(acc, 0x1000_0000, 4, Unsigned(4, bs[4..])) ==
            var n: int := bs[4];
            if n < 0x10 then Found(acc + 0x1000_0000 * (n % 0x80), 5) else Malformed(5)
  {
    assert Pow2(4) == 0x10;
    if bs[4] < 0x80 {
      UnsignedLast(4, acc, 0x1000_0000, 4, bs);
    } else {
      assert bs[4..][0] == bs[4];
    }
  }

  lemma Beginning(f: Flat, want: Leb)
    ensures View0(f) && want == After(0, 1, 0, want)
    ensures Avail(f)[0..] == Avail(f) && |Avail(f)| <= |f.rest| && Pow2(0) == 1
  {
    SkipNone(f);
    AfterNone(want);
  }

  predicate View0(f: Flat) { f == Skip(f, 0) }

  lemma ShortEnd(bs: seq<U8>, k: nat, bits: nat)
    ensures k == |bs| ==> Unsigned(bits, bs[k..]) == Short
  {
  }

  lemma SignedShortEnd(bs: seq<U8>, k: nat, bits: nat)
    requires bits > 0
    ensures k == |bs| ==> Signed(bits, bs[k..]) == Short
  {
  }

  lemma ShortAfter(acc: int, unit: nat, k: nat)
    ensures After(acc, unit, k, Short) == Short
  {
  }

  lemma SeptetFits(acc: nat, unit: nat, n: nat, k: nat)
    requires unit == Pow2(7 * k) && acc < unit && n < 0x80
    ensures acc + unit * n < 0x80 * unit == Pow2(7 * (k + 1))
  {
    PowSeven(7 * (k + 1));
    MulLess(n, 0x80, unit);
    assert unit * n <= unit * 0x7F by { MulAtMost(unit, n, 0x7F); }
  }

  /** The two shifts of the last byte give the value the specification gives. */
  lemma LastExtends(width: nat, k: nat, acc: nat, n: U8, unit: nat)
    requires unit == Pow2(7 * k) && acc < unit && n < 0x80 && width > 7 * k + 7
    ensures ShiftPair(width, width - 7 * (k + 1), acc + unit * n) ==
            if n < 0x40 then unit * n + acc else unit * (n - 0x80) + acc
    ensures Pow2(width - 7 * k - 1) >= 0x80
  {
    PowAtLeast(width - 7 * k - 1);
    PowSeven(7 * (k + 1));
    PowSeven(7 * (k + 1) - 1 + 1);
    HalfPow(k, unit);
    hide Pow2;
    MulAtMost(unit, n, 0x7F);
    MulNat(unit, n);
    ShiftPairExtends(width, width - 7 * (k + 1), acc + unit * n);
    if n < 0x40 {
      MulAtMost(unit, n, 0x3F);
    } else {
      MulAtMost(unit, 0x40, n);
      assert unit * (n - 0x80) == unit * n - unit * 0x80;
    }
  }

  lemma HalfPow(k: nat, unit: nat)
    requires unit == Pow2(7 * k)
    ensures Pow2(7 * (k + 1) - 1) == 0x40 * unit && Pow2(7 * (k + 1)) == 0x80 * unit
  {
    PowSeven(7 * (k + 1));
    assert Pow2(7 * (k + 1)) == 2 * Pow2(7 * (k + 1) - 1);
  }

  /** Counting ones tells whether `w` bits are all ones or all zeros. */
  lemma {:induction false} OnesOf(w: nat, n: nat)
    requires n < Pow2(w)
    ensures CountOnes(n) <= w
    ensures CountOnes(n) == w <==> n == Pow2(w) - 1
    ensures CountOnes(n) == 0 <==> n == 0
    decreases w
  {
    if n > 0 { OnesOf(w - 1, n / 2); }
  }

  /** The fifth byte of a signed 32-bit integer: its padding repeats its sign bit. */
  lemma LastFourSigned(bs: seq<U8>, acc: nat)
    requires |bs| >= 5 && acc < 0x1000_0000
    ensures var n: int := bs[4];
            After(acc, 0x1000_0000, 4, Signed(4, bs[4..])) ==
            if n < 0x80 && (CountOnes(n / 8 % 0x10) == 4 || CountOnes(n / 8 % 0x10) == 0)
            then Found(Wrap(32, acc + 0x1000_0000 * (n % 0x80)), 5) else Malformed(5)
  {
    hide Signed, CountOnes, Wrap, After;
    if bs[4] < 0x80 {
      SignedLast(4, acc, 0x1000_0000, 4, bs);
      SmallPows34();
      hide Pow2;
      OnesOf(4, bs[4] / 8 % 0x10);
      if bs[4] < 8 || bs[4] >= 0x78 { WrapLast32(acc, bs[4]); }
    } else {
      SignedEnd(4, acc, 0x1000_0000, 4, bs);
    }
  }

  lemma SmallPows34()
    ensures Pow2(3) == 8 && Pow2(4) == 0x10
  {
  }

  lemma SignedEnd(bits: nat, acc: int, unit: nat, k: nat, bs: seq<U8>)
    requires 0 < bits <= 7 && k < |bs| && bs[k] >= 0x80
    ensures After(acc, unit, k, Signed(bits, bs[k..])) == Malformed(k + 1)
  {
    assert bs[k..][0] == bs[k];
  }

  lemma WrapLast32(acc: nat, n: nat)
    requires acc < 0x1000_0000 && (n < 8 || 0x78 <= n < 0x80)
    ensures Wrap(32, acc + 0x1000_0000 * n) == if n < 8 then acc + 0x1000_0000 * n else acc + 0x1000_0000 * (n - 0x80)
  {
    Pow2At31();
    hide Pow2;
    var x := acc + 0x1000_0000 * n;
    if n < 8 {
      assert x % 0x1_0000_0000 == x;
    } else {
      assert x % 0x1_0000_0000 == x - 0x7_0000_0000;
    }
  }

  lemma WrapLast64(acc: nat, n: nat)
    requires acc < 0x8000_0000_0000_0000 && (n == 0 || n == 0x7F)
    ensures Wrap(64, acc + 0x8000_0000_0000_0000 * n) == if n == 0 then acc else acc - 0x8000_0000_0000_0000
  {
    Pow2At63();
    hide Pow2;
    var x := acc + 0x8000_0000_0000_0000 * n;
    if n == 0 {
      assert x % 0x1_0000_0000_0000_0000 == x;
    } else {
      assert x == 63 * 0x1_0000_0000_0000_0000 + (acc + 0x8000_0000_0000_0000);
      assert x % 0x1_0000_0000_0000_0000 == acc + 0x8000_0000_0000_0000;
    }
  }

  lemma Pow2At31()
    ensures Pow2(31) == 0x8000_0000 && Pow2(32) == 0x1_0000_0000
  {
    PowSum(15, 16);
    Pow2At16();
  }

  lemma Pow2At16()
    ensures Pow2(15) == 0x8000 && Pow2(16) == 0x1_0000
  {
    assert Pow2(8) == 0x100;
    PowSum(8, 8);
  }

  lemma Pow2At63()
    ensures Pow2(63) == 0x8000_0000_0000_0000 && Pow2(64) == 0x1_0000_0000_0000_0000
  {
    Pow2At31();
    PowSum(31, 32);
  }

  /** The tenth byte of a signed 64-bit integer holds the sign bit only. */
  lemma LastOneSigned(bs: seq<U8>, acc: nat)
    requires |bs| >= 10 && acc < 0x8000_0000_0000_0000
    ensures var n: int := bs[9];
            After(acc, 0x8000_0000_0000_0000, 9, Signed(1, bs[9..])) ==
            if n < 0x80 && (CountOnes(n % 0x80) == 7 || CountOnes(n % 0x80) == 0)
            then Found(Wrap(64, acc + 0x8000_0000_0000_0000 * (n % 0x80)), 10) else Malformed(10)
  {
    hide Signed, CountOnes, Wrap, After;
    if bs[9] < 0x80 {
      SignedLast(1, acc, 0x8000_0000_0000_0000, 9, bs);
      SmallPows07();
      hide Pow2;
      OnesOf(7, bs[9] % 0x80);
      if bs[9] == 0 || bs[9] == 0x7F { WrapLast64(acc, bs[9]); }
    } else {
      SignedEnd(1, acc, 0x8000_0000_0000_0000, 9, bs);
    }
  }

  lemma SmallPows07()
    ensures Pow2(0) == 1 && Pow2(7) == 0x80
  {
    PowSeven(7);
  }
}
