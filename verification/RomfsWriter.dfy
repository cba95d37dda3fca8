/** The writer of ROM file system images, which holds the first 512 bytes back
    until it can put their checksum in. */
module RomfsWriter {
  import opened RomfsBytes
  import opened RomfsLayout

  const HELD: nat := 512
  const BIG: nat := 4096

  function Min(a: nat, b: nat): nat { if a < b then a else b }

  /** The stream `s` as it reaches the file: the checksum in its first header
      covers the first 512 bytes, or all there are by the size in that header. */
  function HoldBack(s: seq<Byte>): (r: seq<Byte>)
    requires |s| >= HELD
    ensures |r| == |s|
    ensures forall i :: 0 <= i < |s| && !(12 <= i < 16) ==> r[i] == s[i]
  {
    FixSum(s[..HELD], Min(HELD, Word(s, 8))) + s[HELD..]
  }

  // ---- The whole image

  const MAGIC0 := 0x2d72_6f6d
  const MAGIC1 := 0x3166_732d

  function VolumeSpace(volume: seq<Byte>): nat {
    16 + Up16(|volume| + 1)
  }

  function LastOffset(volume: seq<Byte>, f: Forest): nat
    requires Wf(f)
  {
    EndOf(f, VolumeSpace(volume))
  }

  function Tail(last: nat): nat {
    if last % 1024 != 0 then 1024 - last % 1024 else 0
  }

  /** What `dumpall` hands to `dumpdata` around the nodes. */
  function Framed(volume: seq<Byte>, last: nat, nodes: seq<Byte>): seq<Byte> {
    RawHeader(MAGIC0, MAGIC1, last, volume) + nodes + Zeros(Tail(last))
  }

  function Nodes(volume: seq<Byte>, f: Forest): Placed
    requires Wf(f)
  {
    Place(f, VolumeSpace(volume))
  }

  /** Everything `dumpall` hands to `dumpdata`, in order. */
  function Stream(volume: seq<Byte>, f: Forest): seq<Byte>
    requires Wf(f)
  {
    var p := Nodes(volume, f);
    Framed(volume, LastOffset(volume, f), Emit(p, NodeWriter(Offsets(p))))
  }

  lemma TailFills(last: nat)
    ensures (last + Tail(last)) % 1024 == 0
  {
  }

  lemma FramedLength(volume: seq<Byte>, last: nat, nodes: seq<Byte>)
    requires VolumeSpace(volume) + |nodes| == last
    ensures |Framed(volume, last, nodes)| == last + Tail(last)
    ensures |Framed(volume, last, nodes)| % 1024 == 0 && |Framed(volume, last, nodes)| >= 1024
  {
    TailFills(last);
  }

  /** The stream ends on a boundary of 1024 bytes, behind the last offset of the first pass. */
  lemma StreamLength(volume: seq<Byte>, f: Forest)
    requires Wf(f)
    ensures |Stream(volume, f)| == LastOffset(volume, f) + Tail(LastOffset(volume, f))
    ensures |Stream(volume, f)| % 1024 == 0 && |Stream(volume, f)| >= 1024
    ensures LastOffset(volume, f) >= VolumeSpace(volume)
  {
    var p := Nodes(volume, f);
    EmitLength(p, NodeWriter(Offsets(p)));
    PassesAgree(f, VolumeSpace(volume));
    FramedLength(volume, LastOffset(volume, f), Emit(p, NodeWriter(Offsets(p))));
  }

  function Image(volume: seq<Byte>, f: Forest): (image: seq<Byte>)
    requires Wf(f)
    ensures |image| == |Stream(volume, f)| >= 1024
    ensures forall i :: 0 <= i < |image| && !(12 <= i < 16) ==> image[i] == Stream(volume, f)[i]
  {
    StreamLength(volume, f);
    HoldBack(Stream(volume, f))
  }

  lemma SizeInFront(next: nat, spec: nat, size: nat, name: seq<Byte>, tail: seq<Byte>)
    requires size < WORD
    ensures Word(RawHeader(next, spec, size, name) + tail, 8) == size
  {
    var head := RawHeader(next, spec, size, name);
    var words := Big(next) + Big(spec) + Big(size);
    assert (head + tail)[0..12] == words;
    HoldsSlice(head + tail, 0, words);
    HeaderWords(next, spec, size, head + tail, 0);
  }

  /** The size field of the volume header is the last offset. */
  lemma FramedSize(volume: seq<Byte>, last: nat, nodes: seq<Byte>)
    requires last < WORD
    ensures Word(Framed(volume, last, nodes), 8) == last
  {
    SizeInFront(MAGIC0, MAGIC1, last, volume, nodes + Zeros(Tail(last)));
    JoinThree(RawHeader(MAGIC0, MAGIC1, last, volume), nodes, Zeros(Tail(last)));
  }

  lemma HeldAddsUp(s: seq<Byte>, last: nat)
    requires |s| >= HELD && Word(s, 8) == last && last % 16 == 0 && last >= 16
    ensures Sum(HoldBack(s)[..Min(HELD, last)]) == 0
  {
    var size := Min(HELD, last);
    var held := s[..HELD];
    FixedSumIsZero(held, size);
    assert HoldBack(s)[..size] == FixSum(held, size)[..size];
  }

  lemma StreamSize(volume: seq<Byte>, f: Forest)
    requires Wf(f) && LastOffset(volume, f) < WORD
    ensures |Stream(volume, f)| >= HELD && Word(Stream(volume, f), 8) == LastOffset(volume, f)
  {
    var p := Nodes(volume, f);
    StreamLength(volume, f);
    FramedSize(volume, LastOffset(volume, f), Emit(p, NodeWriter(Offsets(p))));
  }

  lemma LastOnBoundary(volume: seq<Byte>, f: Forest)
    requires Wf(f)
    ensures LastOffset(volume, f) % 16 == 0 && LastOffset(volume, f) >= 16
  {
    PlacedOnBoundaries(f, VolumeSpace(volume));
    PassesAgree(f, VolumeSpace(volume));
  }

  /** The first 512 bytes, or all up to the last offset, add up to zero. */
  lemma ImageSumIsZero(volume: seq<Byte>, f: Forest)
    requires Wf(f) && LastOffset(volume, f) < WORD
    ensures var last := LastOffset(volume, f);
            Sum(Image(volume, f)[..if last < 512 then last else 512]) == 0
  {
    StreamSize(volume, f);
    LastOnBoundary(volume, f);
    HeldAddsUp(Stream(volume, f), LastOffset(volume, f));
  }

  // ---- The writer

  /** `memcpy` into a buffer. */
  method Put(a: array<Byte>, at: nat, b: seq<Byte>)
    requires at + |b| <= a.Length
    modifies a
    ensures a[..] == old(a[..at]) + b + old(a[at + |b|..])
  {
    var i := 0;
    while i < |b|
      invariant 0 <= i <= |b|
      invariant forall j :: 0 <= j < a.Length ==> a[j] == if at <= j < at + i then b[j - at] else old(a[j])
    {
      a[at + i] := b[i];
      i := i + 1;
    }
  }

  /** `fixsum` in place. */
  method FixInPlace(a: array<Byte>, size: nat)
    requires 16 <= a.Length && size <= a.Length
    modifies a
    ensures a[..] == FixSum(old(a[..]), size)
  {
    Put(a, 12, Big(0));
    assert a[..] == WithSum(old(a[..]), 0);
    var sum := Checksum(a[..], size);
    ghost var zeroed := a[..];
    Put(a, 12, Big(-(sum as int)));
    assert a[..] == WithSum(zeroed, -(sum as int));
  }

  /** `read`: some of what is left, and nothing only when nothing is left. */
  method Read(data: seq<Byte>, offset: nat, avail: nat) returns (len: nat)
    requires avail > 0
    ensures len <= avail && (len == 0 <==> offset >= |data|) && (len > 0 ==> offset + len <= |data|)
  {
    if offset >= |data| {
      len := 0;
    } else {
      assert offset + 1 <= |data|;
      len :| 1 <= len <= avail && offset + len <= |data|;
    }
  }

  class Dumper {
    const fixbuf: array<Byte>
    const bigbuf: array<Byte>
    var atoffs: nat
    var file: seq<Byte>
    ghost var stream: seq<Byte>

    ghost predicate Valid()
      reads this, fixbuf, bigbuf
    {
      && fixbuf.Length == HELD && bigbuf.Length == BIG && fixbuf != bigbuf
      && atoffs == |stream|
      && (atoffs < HELD ==> file == [] && fixbuf[..atoffs] == stream)
      && (atoffs >= HELD ==> file == HoldBack(stream))
    }

    constructor ()
      ensures Valid() && fresh(fixbuf) && fresh(bigbuf) && stream == []
    {
      fixbuf := new Byte[HELD](_ => 0);
      bigbuf := new Byte[BIG](_ => 0);
      atoffs := 0;
      file := [];
      stream := [];
    }

    /** `dumpdata`: however the stream is cut into calls, the file gets the stream
        with its checksum in place. */
    method DumpData(b: seq<Byte>)
      requires Valid()
      modifies this, fixbuf
      ensures Valid() && stream == old(stream) + b
    {
      if |b| == 0 {
        assert stream + b == stream;
        return;
      }
      if atoffs >= HELD {
        AppendHeld(stream, b);
        file := file + b;
        atoffs := atoffs + |b|;
        stream := stream + b;
        return;
      }
      var n := Min(|b|, HELD - atoffs);
      ghost var first := stream + b[..n];
      Put(fixbuf, atoffs, b[..n]);
      assert fixbuf[..atoffs + n] == first;
      atoffs := atoffs + n;
      if atoffs == HELD {
        assert fixbuf[..] == first && first[..HELD] == first;
        FixInPlace(fixbuf, Min(HELD, Word(fixbuf[..], 8)));
        file := fixbuf[..];
        assert file == HoldBack(first);
      }
      var rest := b[n..];
      assert first + rest == stream + b;
      if |rest| > 0 {
        AppendHeld(first, rest);
        file := file + rest;
        atoffs := atoffs + |rest|;
      }
      stream := first + rest;
    }

    /** `dumpzero`, through the scratch buffer. */
    method DumpZero(n: nat)
      requires Valid() && n <= BIG
      modifies this, fixbuf, bigbuf
      ensures Valid() && stream == old(stream) + Zeros(n)
    {
      Put(bigbuf, 0, Zeros(n));
      assert bigbuf[..n] == Zeros(n);
      DumpData(bigbuf[..n]);
    }

    /** `dumpdataa`: data and zeros up to the next multiple of 16. */
    method DumpAligned(b: seq<Byte>)
      requires Valid()
      modifies this, fixbuf, bigbuf
      ensures Valid() && stream == old(stream) + (b + Zeros(Up16(|b|) - |b|))
    {
      Up16Fills(|b|);
      DumpData(b);
      if |b| % 16 != 0 {
        DumpZero(16 - |b| % 16);
      }
      assert stream == old(stream) + (b + Zeros(Up16(|b|) - |b|));
    }

    /** `dumpri`: the header is put together in the scratch buffer, with its name
        and the zeros behind it, and summed there unless it is the volume's. */
    method DumpHeader(next: nat, spec: nat, size: nat, name: seq<Byte>, summed: bool)
      requires Valid() && 16 + Up16(|name| + 1) <= BIG
      modifies this, fixbuf, bigbuf
      ensures Valid() && stream == old(stream) + HeaderBytes(next, spec, size, name, summed)
    {
      ghost var raw := RawHeader(next, spec, size, name);
      var len := 16 + Up16(|name| + 1);
      Put(bigbuf, 0, Fields(next, spec, size, PLACEHOLDER));
      Put(bigbuf, 16, PaddedName(name));
      assert bigbuf[..len] == raw;
      if summed {
        FixPrefix(bigbuf[..], len);
        FixInPlace(bigbuf, len);
        assert bigbuf[..len] == Summed(raw);
      }
      DumpData(bigbuf[..len]);
    }

    /** The reading loop of `dumpnode`, whatever the sizes of the pieces `read` delivers. */
    method DumpRead(data: seq<Byte>, max: nat) returns (offset: nat)
      requires Valid()
      modifies this, fixbuf
      ensures Valid() && offset == Min(max, |data|) && stream == old(stream) + data[..offset]
    {
      offset := 0;
      while offset < max
        invariant offset <= max && offset <= |data| && Valid() && stream == old(stream) + data[..offset]
        decreases max - offset
      {
        var len := Read(data, offset, Min(max - offset, BIG));
        if len == 0 {
          break;
        }
        DumpData(data[offset..offset + len]);
        assert data[..offset + len] == data[..offset] + data[offset..offset + len];
        offset := offset + len;
      }
    }

    /** The loop of `dumpnode` that fills up with zeros. */
    method DumpZeros(from: nat, max: nat)
      requires Valid() && from <= max
      modifies this, fixbuf, bigbuf
      ensures Valid() && stream == old(stream) + Zeros(max - from)
    {
      var offset := from;
      while offset < max
        invariant from <= offset <= max && Valid() && stream == old(stream) + Zeros(offset - from)
        decreases max - offset
      {
        var avail := Min(max - offset, BIG);
        DumpZero(avail);
        assert Zeros(offset - from) + Zeros(avail) == Zeros(offset + avail - from);
        offset := offset + avail;
      }
    }

    /** The part of `dumpnode` that copies a regular file, with zeros for what
        could not be read. */
    method DumpFile(f: File)
      requires Valid() && f.kind.Regular?
      modifies this, fixbuf, bigbuf
      ensures Valid() && stream == old(stream) + Content(f)
    {
      var offset := DumpRead(f.data, f.size);
      DumpZeros(offset, Up16(f.size));
      assert f.data[..offset] + Zeros(Up16(f.size) - offset) == Content(f);
    }

    /** The part of `dumpnode` that copies the target of a symbolic link, read
        into the cleared scratch buffer. */
    method DumpLink(f: File)
      requires Valid() && f.kind.SymLink? && f.size <= BIG
      modifies this, fixbuf, bigbuf
      ensures Valid() && stream == old(stream) + Content(f)
    {
      var got := if |f.data| > f.size then f.data[..f.size] else f.data;
      Put(bigbuf, 0, Zeros(BIG));
      assert bigbuf[..] == Zeros(BIG);
      Put(bigbuf, 0, got);
      LinkText(bigbuf[..], got, f.size);
      DumpAligned(bigbuf[..f.size]);
    }

    /** The part of `dumpnode` behind the header. */
    method DumpContent(f: File)
      requires Valid() && (f.kind.SymLink? ==> f.size <= BIG)
      modifies this, fixbuf, bigbuf
      ensures Valid() && stream == old(stream) + Content(f)
    {
      if f.kind.SymLink? {
        DumpLink(f);
      } else if f.kind.Regular? {
        DumpFile(f);
      } else {
        assert Content(f) == [];
        assert stream + Content(f) == stream;
      }
    }

    /** What `dumpnode` writes for the node itself, behind its padding. */
    method DumpSelf(p: Placed, offsets: seq<nat>)
      requires Valid() && p.At? && Dumpable(p)
      modifies this, fixbuf, bigbuf
      ensures Valid() && stream == old(stream) + NodeBytes(p, offsets)
    {
      DumpHeader(OffsetOf(p.rest) + TypeBits(p.file), Spec(p, offsets), Size(p.file), p.file.name, p.offset != 0);
      assert stream == old(stream) + Header(p, offsets);
      DumpContent(p.file);
      JoinThree(old(stream), Header(p, offsets), Content(p.file));
    }

    /** `dumpnode`, from the padding in front of a node to the end of what is below
        it.  Its header starts at the offset the first pass gave it. */
    method DumpNode(p: Placed, offsets: seq<nat>, ghost w: Writer)
      requires Valid() && p.At? && Dumpable(p) && w == NodeWriter(offsets) && Consecutive(p, |stream|)
      modifies this, fixbuf, bigbuf
      ensures Valid() && stream == old(stream) + (Zeros(p.pad) + w(p) + Emit(p.kids, w))
      ensures Consecutive(p.rest, |stream|)
      decreases p, 0
    {
      if p.pad != 0 {
        DumpZero(p.pad);
      }
      ghost var padded := stream;
      assert padded == old(stream) + Zeros(p.pad);
      assert atoffs == p.offset;
      DumpSelf(p, offsets);
      WriterWrites(offsets, p);
      assert stream == padded + w(p);
      DumpList(p.kids, offsets, w);
      JoinFour(old(stream), Zeros(p.pad), w(p), Emit(p.kids, w));
      WriterFits(offsets);
      EmitLength(p.kids, w);
    }

    /** The loop over a directory list. */
    method DumpList(p: Placed, offsets: seq<nat>, ghost w: Writer)
      requires Valid() && Dumpable(p) && w == NodeWriter(offsets) && Consecutive(p, |stream|)
      modifies this, fixbuf, bigbuf
      ensures Valid() && stream == old(stream) + Emit(p, w)
      decreases p, 1
    {
      var q := p;
      while q.At?
        invariant Valid() && Dumpable(q) && (q == p || q < p) && Consecutive(q, |stream|)
        invariant stream + Emit(q, w) == old(stream) + Emit(p, w)
        decreases q
      {
        ghost var s := stream;
        DumpNode(q, offsets, w);
        EmitStep(s, q, w);
        q := q.rest;
      }
      assert stream + [] == stream;
    }

    /** `dumpall`: the file holds the image. */
    method DumpAll(volume: seq<Byte>, f: Forest)
      requires Valid() && stream == [] && Wf(f) && Dumpable(Nodes(volume, f))
      requires VolumeSpace(volume) <= BIG
      modifies this, fixbuf, bigbuf
      ensures Valid() && file == Image(volume, f)
    {
      var p := Nodes(volume, f);
      var last := LastOffset(volume, f);
      DumpHeader(MAGIC0, MAGIC1, last, volume, false);
      PlaceIsConsecutive(f, VolumeSpace(volume));
      DumpList(p, Offsets(p), NodeWriter(Offsets(p)));
      if last % 1024 != 0 {
        DumpZero(1024 - last % 1024);
      }
      DumpedAll(stream, volume, last, Emit(p, NodeWriter(Offsets(p))));
      StreamLength(volume, f);
    }
  }

  lemma LinkText(buffer: seq<Byte>, got: seq<Byte>, size: nat)
    requires |got| <= size <= BIG && buffer == got + Zeros(BIG)[|got|..]
    ensures buffer[..size] + Zeros(Up16(size) - size) == got + Zeros(Up16(size) - |got|)
  {
  }

  lemma JoinThree(s: seq<Byte>, a: seq<Byte>, b: seq<Byte>)
    ensures s + a + b == s + (a + b)
  {
  }

  lemma JoinFour(s: seq<Byte>, a: seq<Byte>, b: seq<Byte>, c: seq<Byte>)
    ensures s + a + b + c == s + (a + b + c)
  {
  }

  lemma DumpedAll(s: seq<Byte>, volume: seq<Byte>, last: nat, nodes: seq<Byte>)
    requires s == [] + RawHeader(MAGIC0, MAGIC1, last, volume) + nodes
               + if last % 1024 != 0 then Zeros(1024 - last % 1024) else []
    ensures s == Framed(volume, last, nodes)
  {
  }

  lemma WriterWrites(offsets: seq<nat>, p: Placed)
    requires p.At?
    ensures NodeWriter(offsets)(p) == NodeBytes(p, offsets)
  {
  }

  lemma WriterFits(offsets: seq<nat>)
    ensures Fits(NodeWriter(offsets))
  {
  }

  lemma EmitStep(s: seq<Byte>, q: Placed, w: Writer)
    requires q.At?
    ensures s + (Zeros(q.pad) + w(q) + Emit(q.kids, w)) + Emit(q.rest, w) == s + Emit(q, w)
  {
  }

  /** What has to fit the scratch buffer fits. */
  predicate Dumpable(p: Placed) {
    p.At? ==>
      && p.pad <= BIG && HeaderSpace(p.file) <= BIG && (p.file.kind.SymLink? ==> p.file.size <= BIG)
      && Dumpable(p.kids) && Dumpable(p.rest)
  }

  lemma WithSumPrefix(b: seq<Byte>, x: int, len: nat)
    requires 16 <= len <= |b|
    ensures WithSum(b, x)[..len] == WithSum(b[..len], x)
  {
  }

  /** Summing a header inside a longer buffer. */
  lemma FixPrefix(b: seq<Byte>, len: nat)
    requires 16 <= len <= |b| && len % 16 == 0
    ensures FixSum(b, len)[..len] == Summed(b[..len])
  {
    Quarter(len);
    assert len / 4 * 4 == len;
    var zeroed := WithSum(b, 0);
    var x := -(Sum(zeroed[..len]) as int);
    WithSumPrefix(b, 0, len);
    WithSumPrefix(zeroed, x, len);
    assert WithSum(b[..len], 0)[..len] == WithSum(b[..len], 0);
  }

  lemma Up16Fills(n: nat)
    ensures Up16(n) - n == if n % 16 != 0 then 16 - n % 16 else 0
  {
  }

  lemma AppendHeld(s: seq<Byte>, b: seq<Byte>)
    requires |s| >= HELD
    ensures HoldBack(s + b) == HoldBack(s) + b
  {
    assert (s + b)[..HELD] == s[..HELD] && (s + b)[HELD..] == s[HELD..] + b;
    assert (s + b)[8..12] == s[8..12];
  }
}
