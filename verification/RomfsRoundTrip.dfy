/** The reader undoes the writer. */
module RomfsRoundTrip {
  import opened RomfsBytes
  import opened RomfsLayout
  import opened RomfsWriter
  import opened RomfsReader

  // ---- The image holds its tree

  lemma FramedHolds(volume: seq<Byte>, last: nat, nodes: seq<Byte>)
    ensures Holds(Framed(volume, last, nodes), VolumeSpace(volume), nodes)
  {
    var s := Framed(volume, last, nodes);
    assert s[VolumeSpace(volume)..VolumeSpace(volume) + |nodes|] == nodes;
    HoldsSlice(s, VolumeSpace(volume), nodes);
  }

  lemma FramedNamed(volume: seq<Byte>, last: nat, nodes: seq<Byte>)
    ensures Holds(Framed(volume, last, nodes), 16, PaddedName(volume))
  {
    var s := Framed(volume, last, nodes);
    var head := RawHeader(MAGIC0, MAGIC1, last, volume);
    assert s == head + (nodes + Zeros(Tail(last)));
    assert s[16..16 + |PaddedName(volume)|] == head[16..] == PaddedName(volume);
    HoldsSlice(s, 16, PaddedName(volume));
  }

  /** Every node of the tree stands in the image at its offset, its header
      followed by its content, and every field of every header reads back. */
  lemma ImageHoldsTree(volume: seq<Byte>, f: Forest)
    requires Wf(f) && LastOffset(volume, f) < WORD
    ensures AllAt(Image(volume, f), Nodes(volume, f), NodeWriter(Offsets(Nodes(volume, f))))
    ensures ReadsBack(Image(volume, f), Nodes(volume, f), Offsets(Nodes(volume, f)))
  {
    var cur := VolumeSpace(volume);
    var p := Nodes(volume, f);
    var w := NodeWriter(Offsets(p));
    FramedHolds(volume, LastOffset(volume, f), Emit(p, w));
    HoldsElsewhere(Stream(volume, f), Image(volume, f), cur, Emit(p, w));
    PlaceIsConsecutive(f, cur);
    EmittedAtOffsets(p, cur, w, Image(volume, f));
    TreeInRange(volume, f);
    AllReadBack(Image(volume, f), p, Offsets(p), w);
  }

  lemma PlacedBetween(f: Forest, cur: nat)
    requires Wf(f)
    ensures Between(Place(f, cur), cur, EndOf(f, cur))
  {
    PlaceIsConsecutive(f, cur);
    PassesAgree(f, cur);
    ConsecutiveBetween(Place(f, cur), cur);
  }

  lemma TreeInRange(volume: seq<Byte>, f: Forest)
    requires Wf(f) && LastOffset(volume, f) < WORD
    ensures var p := Nodes(volume, f); OnBoundaries(p) && NamesOk(p) && Between(p, 16, WORD)
  {
    var cur := VolumeSpace(volume);
    PlacedOnBoundaries(f, cur);
    PlacedNamesOk(f, cur);
    PlacedBetween(f, cur);
    Widen(Place(f, cur), cur, EndOf(f, cur), 16, WORD);
  }

  lemma ImageNamed(volume: seq<Byte>, f: Forest)
    requires Wf(f) && LastOffset(volume, f) < WORD
    requires forall i :: 0 <= i < |volume| ==> volume[i] != 0
    ensures CStr(Image(volume, f), 16) == volume && Word(Image(volume, f), 8) == LastOffset(volume, f)
  {
    var image := Image(volume, f);
    ImageHoldsName(volume, f);
    NameHeld(image, volume);
    ImageSized(volume, f);
  }

  lemma NameHeld(image: seq<Byte>, volume: seq<Byte>)
    requires Holds(image, 16, PaddedName(volume)) && forall i :: 0 <= i < |volume| ==> volume[i] != 0
    ensures CStr(image, 16) == volume
  {
    CStrHeld(image, 16, volume, Up16(|volume| + 1) - |volume|);
  }

  lemma ImageSized(volume: seq<Byte>, f: Forest)
    requires Wf(f) && LastOffset(volume, f) < WORD
    ensures Word(Image(volume, f), 8) == LastOffset(volume, f)
  {
    StreamSize(volume, f);
    SameSize(Stream(volume, f), Image(volume, f));
  }

  lemma SameSize(s: seq<Byte>, t: seq<Byte>)
    requires |t| == |s| >= 16 && forall i :: 0 <= i < |t| && !(12 <= i < 16) ==> t[i] == s[i]
    ensures Word(t, 8) == Word(s, 8)
  {
    assert t[8..12] == s[8..12];
  }

  lemma ImageHoldsName(volume: seq<Byte>, f: Forest)
    requires Wf(f)
    ensures Holds(Image(volume, f), 16, PaddedName(volume))
  {
    var p := Nodes(volume, f);
    FramedNamed(volume, LastOffset(volume, f), Emit(p, NodeWriter(Offsets(p))));
    HoldsElsewhere(Stream(volume, f), Image(volume, f), 16, PaddedName(volume));
  }

  // ---- Pointers

  lemma NextReads(image: seq<Byte>, q: Placed, offsets: seq<nat>)
    requires q.At? && Legible(image, q, offsets) && (q.rest.At? ==> q.rest.offset % 16 == 0)
    ensures Next(image, q.offset) == OffsetOf(q.rest)
  {
    var off, t := OffsetOf(q.rest), TypeBits(q.file);
    assert off == 16 * (off / 16);
    assert (off + t) % 16 == t;
  }

  /** The sibling pointers lead the reader through exactly the siblings. */
  lemma {:induction false} SiblingsChain(image: seq<Byte>, p: Placed, offsets: seq<nat>)
    requires p.At? && ReadsBack(image, p, offsets)
    ensures Chain(image, p.offset, Siblings(p))
    decreases p
  {
    NextReads(image, p, offsets);
    if p.rest.At? {
      SiblingsChain(image, p.rest, offsets);
      assert Siblings(p)[1..] == Siblings(p.rest);
    }
  }

  lemma {:induction false} InOffsets(p: Placed, q: Placed)
    requires Within(q, p)
    ensures q.offset in Offsets(p)
    decreases p
  {
    if q != p {
      if Within(q, p.kids) {
        InOffsets(p.kids, q);
      } else {
        InOffsets(p.rest, q);
      }
    }
  }

  lemma {:induction false} WithinReadsBack(image: seq<Byte>, p: Placed, offsets: seq<nat>, q: Placed)
    requires ReadsBack(image, p, offsets) && Within(q, p)
    ensures Legible(image, q, offsets) && ReadsBack(image, q, offsets)
    decreases p
  {
    if q != p {
      if Within(q, p.kids) {
        WithinReadsBack(image, p.kids, offsets, q);
      } else {
        WithinReadsBack(image, p.rest, offsets, q);
      }
    }
  }

  lemma {:induction false} WithinTransitive(r: Placed, q: Placed, p: Placed)
    requires Within(r, q) && Within(q, p)
    ensures Within(r, p)
    decreases p
  {
    if q != p {
      if Within(q, p.kids) {
        WithinTransitive(r, q, p.kids);
      } else {
        WithinTransitive(r, q, p.rest);
      }
    }
  }

  lemma {:induction false} WithinBetween(p: Placed, q: Placed, lo: nat, hi: nat)
    requires Between(p, lo, hi) && Within(q, p)
    ensures lo <= q.offset && q.offset + 16 <= hi && Between(q, lo, hi)
    decreases p
  {
    if q != p {
      if Within(q, p.kids) {
        WithinBetween(p.kids, q, p.offset + 1, hi);
        Widen(q, p.offset + 1, hi, lo, hi);
      } else {
        WithinBetween(p.rest, q, p.offset + 1, hi);
        Widen(q, p.offset + 1, hi, lo, hi);
      }
    }
  }

  /** The pointers of `q` read from the image lead to other headers of `p`. */
  ghost predicate PointersClosed(image: seq<Byte>, p: Placed, q: Placed)
    requires q.At? && q.offset + 16 <= |image|
  {
    var headers, next := Offsets(p), Next(image, q.offset);
    && (next == 0 <==> q.rest.End?) && (next != 0 ==> next in headers && next > q.offset)
    && (q.file.kind.Directory? ==> Word(image, q.offset + 4) in headers)
    && (q.file.kind.HardLink? ==>
          q.file.kind.target < |headers| && Word(image, q.offset + 4) == headers[q.file.kind.target])
  }

  lemma {:induction false} PlacedHeaders(f: Forest, cur: nat)
    requires Wf(f)
    ensures |Offsets(Place(f, cur))| == Headers(f)
  {
    if f.Cons? {
      var below := cur + Pad(f.file, cur) + Space(f.file);
      PlacedHeaders(f.kids, below);
      PlacedHeaders(f.rest, EndOf(f.kids, below));
    }
  }

  lemma {:induction false} PlacedLinks(f: Forest, cur: nat, n: nat, q: Placed)
    requires Wf(f) && LinksIn(f, n) && Within(q, Place(f, cur))
    ensures q.file.kind.HardLink? ==> q.file.kind.target < n
    decreases f
  {
    var below := cur + Pad(f.file, cur) + Space(f.file);
    if q != Place(f, cur) {
      if Within(q, Place(f, cur).kids) {
        PlacedLinks(f.kids, below, n, q);
      } else {
        PlacedLinks(f.rest, EndOf(f.kids, below), n, q);
      }
    }
  }

  lemma NextCloses(p: Placed, q: Placed)
    requires Within(q, p) && Between(p, 16, WORD)
    ensures q.rest.At? ==> q.rest.offset in Offsets(p) && q.rest.offset > q.offset
    ensures q.file.kind.Directory? ==> Spec(q, Offsets(p)) in Offsets(p)
  {
    WithinBetween(p, q, 16, WORD);
    InOffsets(p, q);
    if q.rest.At? {
      assert Within(q.rest, q.rest) && Within(q.rest, q);
      WithinTransitive(q.rest, q, p);
      InOffsets(p, q.rest);
    }
    if q.file.kind.Directory? && q.kids.At? {
      assert Within(q.kids, q.kids) && Within(q.kids, q);
      WithinTransitive(q.kids, q, p);
      InOffsets(p, q.kids);
    }
  }

  lemma SmallMod(x: nat)
    requires x < WORD
    ensures x % WORD == x
  {
  }

  lemma SpecReads(image: seq<Byte>, q: Placed, headers: seq<nat>)
    requires q.At? && Legible(image, q, headers)
    requires forall i :: 0 <= i < |headers| ==> headers[i] < WORD
    requires q.file.kind.Directory? ==> Spec(q, headers) in headers
    ensures q.file.kind.Directory? ==> Word(image, q.offset + 4) in headers
    ensures q.file.kind.HardLink? && q.file.kind.target < |headers| ==>
              Word(image, q.offset + 4) == headers[q.file.kind.target]
  {
    if q.file.kind.Directory? || (q.file.kind.HardLink? && q.file.kind.target < |headers|) {
      SmallMod(Spec(q, headers));
    }
  }

  lemma ClosedWithin(image: seq<Byte>, p: Placed, q: Placed, headers: seq<nat>)
    requires headers == Offsets(p) && ReadsBack(image, p, headers) && Within(q, p) && Between(p, 16, WORD)
    requires q.file.kind.HardLink? ==> q.file.kind.target < |headers|
    ensures q.offset + 16 <= |image| && PointersClosed(image, p, q)
  {
    WithinReadsBack(image, p, headers, q);
    NextReads(image, q, headers);
    NextCloses(p, q);
    OffsetsBetween(p, 16, WORD);
    SpecReads(image, q, headers);
  }

  /** Every pointer in the image is closed: the next sibling, the first entry of a
      directory and the target of a hard link are headers of the image, siblings
      come later in it, and only the last of them points to nothing. */
  lemma PointersAreClosed(volume: seq<Byte>, f: Forest, q: Placed)
    requires Wf(f) && LastOffset(volume, f) < WORD && LinksIn(f, Headers(f)) && Within(q, Nodes(volume, f))
    ensures q.offset + 16 <= |Image(volume, f)| && PointersClosed(Image(volume, f), Nodes(volume, f), q)
  {
    ImageHoldsTree(volume, f);
    TreeInRange(volume, f);
    PlacedHeaders(f, VolumeSpace(volume));
    PlacedLinks(f, VolumeSpace(volume), Headers(f), q);
    ClosedWithin(Image(volume, f), Nodes(volume, f), q, Offsets(Nodes(volume, f)));
  }

  lemma {:induction false} OffsetsBetween(p: Placed, lo: nat, hi: nat)
    requires Between(p, lo, hi)
    ensures forall i :: 0 <= i < |Offsets(p)| ==> lo <= Offsets(p)[i] < hi
    decreases p
  {
    if p.At? {
      OffsetsBetween(p.kids, p.offset + 1, hi);
      OffsetsBetween(p.rest, p.offset + 1, hi);
    }
  }

  lemma HeaderAddsUp(image: seq<Byte>, p: Placed, q: Placed, headers: seq<nat>)
    requires AllAt(image, p, NodeWriter(headers)) && Within(q, p) && q.offset != 0
    ensures q.offset + HeaderSpace(q.file) <= |image| && Sum(image[q.offset..q.offset + HeaderSpace(q.file)]) == 0
  {
    WithinAt(image, p, NodeWriter(headers), q);
    WriterWrites(headers, q);
    NodeParts(image, q, headers);
    SliceAddsUp(image, q.offset, Header(q, headers), HeaderSpace(q.file));
  }

  lemma SliceAddsUp(image: seq<Byte>, at: nat, b: seq<Byte>, n: nat)
    requires Holds(image, at, b) && |b| == n && Sum(b) == 0
    ensures at + n <= |image| && Sum(image[at..at + n]) == 0
  {
    HoldsSlice(image, at, b);
  }

  /** Every header in the image, with its padded name, adds up to zero. */
  lemma HeadersAddUp(volume: seq<Byte>, f: Forest, q: Placed)
    requires Wf(f) && LastOffset(volume, f) < WORD && Within(q, Nodes(volume, f))
    ensures q.offset + HeaderSpace(q.file) <= |Image(volume, f)|
    ensures Sum(Image(volume, f)[q.offset..q.offset + HeaderSpace(q.file)]) == 0
  {
    ImageHoldsTree(volume, f);
    TreeInRange(volume, f);
    WithinBetween(Nodes(volume, f), q, 16, WORD);
    HeaderAddsUp(Image(volume, f), Nodes(volume, f), q, Offsets(Nodes(volume, f)));
  }

  // ---- Looking a name up

  /** The first of the siblings `p` with the name. */
  function Find(p: Placed, name: seq<Byte>): Placed {
    if p.End? then End else if p.file.name == name then p else Find(p.rest, name)
  }

  lemma {:induction false} LookupFinds(image: seq<Byte>, p: Placed, offsets: seq<nat>, name: seq<Byte>)
    requires |image| >= 16 && ReadsBack(image, p, offsets)
    ensures forall i :: 0 <= i < |Siblings(p)| ==> Siblings(p)[i] + 12 <= |image|
    ensures Lookup(image, name, Siblings(p))
         == if Find(p, name).At? then Some(INode(Find(p, name).offset, Size(Find(p, name).file) % WORD))
            else if CStr(image, 16) == name then Some(INode(0, Word(image, 8))) else None
    decreases p
  {
    if p.At? {
      LookupFinds(image, p.rest, offsets, name);
      assert Siblings(p)[1..] == Siblings(p.rest);
    }
  }

  /** Names are C strings, and all offsets are words. */
  predicate Writable(volume: seq<Byte>, f: Forest) {
    Wf(f) && LastOffset(volume, f) < WORD && forall i :: 0 <= i < |volume| ==> volume[i] != 0
  }

  /** The volume names and first entries with which the reader starts where the
      writer put the first header. */
  predicate StartsRight(volume: seq<Byte>, f: Forest)
    requires Wf(f)
  {
    && |volume| < 256 && |volume| % 16 != 0
    && f.Cons? && Pad(f.file, VolumeSpace(volume)) == 0
  }

  predicate Readable(volume: seq<Byte>, f: Forest) {
    Writable(volume, f) && StartsRight(volume, f)
  }

  lemma StartOf(image: seq<Byte>, volume: seq<Byte>)
    requires CStr(image, 16) == volume
    ensures FirstHeader(image) == Up16(|volume| % 256 + 16)
  {
  }

  lemma StartIs(image: seq<Byte>, volume: seq<Byte>, first: nat, some: bool, pad: nat)
    requires CStr(image, 16) == volume && first == if some then 16 + Up16(|volume| + 1) + pad else 0
    ensures FirstHeader(image) == first <==> some && |volume| < 256 && |volume| % 16 != 0 && pad == 0
  {
    StartOf(image, volume);
    StepOverName(|volume|, pad);
  }

  lemma FirstOffset(volume: seq<Byte>, f: Forest)
    requires Wf(f)
    ensures OffsetOf(Nodes(volume, f))
         == if f.Cons? then 16 + Up16(|volume| + 1) + Pad(f.file, VolumeSpace(volume)) else 0
  {
  }

  /** The reader starts at the first header of the image exactly when the volume
      name is shorter than 256, its length is no multiple of 16, and the first
      entry is not padded. */
  lemma StartAgrees(volume: seq<Byte>, f: Forest)
    requires Writable(volume, f)
    ensures FirstHeader(Image(volume, f)) == OffsetOf(Nodes(volume, f)) <==> StartsRight(volume, f)
  {
    ImageNamed(volume, f);
    FirstOffset(volume, f);
    StartIs(Image(volume, f), volume, OffsetOf(Nodes(volume, f)), f.Cons?,
            if f.Cons? then Pad(f.file, VolumeSpace(volume)) else 0);
  }

  lemma ZerosLeadNowhere(image: seq<Byte>, at: nat, n: nat)
    requires Holds(image, at, Zeros(n)) && n >= 16 && at > 0
    ensures Chain(image, at, [at])
  {
    HoldsSlice(image, at, Zeros(n));
    var z := image[at..at + n];
    assert z[0] == 0 && z[1] == 0 && z[2] == 0 && z[3] == 0;
    WordOfFour(image, at);
  }

  lemma StartsInName(image: seq<Byte>, volume: seq<Byte>)
    requires Holds(image, 16, PaddedName(volume)) && CStr(image, 16) == volume && |volume| < 256 && |volume| % 16 == 0
    ensures Chain(image, FirstHeader(image), [FirstHeader(image)])
  {
    StepOverName(|volume|, 0);
    HoldsParts(image, 16, volume, Zeros(16));
    ZerosLeadNowhere(image, 16 + |volume|, 16);
  }

  lemma StartsBehindName(image: seq<Byte>, volume: seq<Byte>, n: nat)
    requires Holds(image, VolumeSpace(volume), Zeros(n)) && n >= 16
    requires CStr(image, 16) == volume && |volume| < 256 && |volume| % 16 != 0
    ensures Chain(image, FirstHeader(image), [FirstHeader(image)])
  {
    StepOverName(|volume|, 0);
    ZerosLeadNowhere(image, VolumeSpace(volume), n);
  }

  lemma EmitPads(image: seq<Byte>, at: nat, p: Placed, w: Writer)
    requires p.At? && Holds(image, at, Emit(p, w))
    ensures Holds(image, at, Zeros(p.pad))
  {
    HoldsParts(image, at, Zeros(p.pad) + w(p) + Emit(p.kids, w), Emit(p.rest, w));
    HoldsParts(image, at, Zeros(p.pad) + w(p), Emit(p.kids, w));
    HoldsParts(image, at, Zeros(p.pad), w(p));
  }

  lemma ImageHoldsNodes(volume: seq<Byte>, f: Forest, p: Placed, w: Writer)
    requires Wf(f) && p == Nodes(volume, f) && w == NodeWriter(Offsets(p))
    ensures Holds(Image(volume, f), VolumeSpace(volume), Emit(p, w))
  {
    FramedHolds(volume, LastOffset(volume, f), Emit(p, w));
    HoldsElsewhere(Stream(volume, f), Image(volume, f), VolumeSpace(volume), Emit(p, w));
  }

  lemma PadIsWide(file: File, cur: nat)
    requires file.align > 0 && file.align % 16 == 0 && cur % 16 == 0 && Pad(file, cur) > 0
    ensures Pad(file, cur) >= 16
  {
    PadAligns(file, cur);
    Plus16(cur + Pad(file, cur), cur);
  }

  /** The zeros in front of a padded first entry. */
  lemma FirstPadding(volume: seq<Byte>, f: Forest, n: nat)
    requires Wf(f) && f.Cons? && n == Pad(f.file, VolumeSpace(volume)) > 0
    ensures n >= 16 && Holds(Image(volume, f), VolumeSpace(volume), Zeros(n))
  {
    var p := Nodes(volume, f);
    var w := NodeWriter(Offsets(p));
    ImageHoldsNodes(volume, f, p, w);
    EmitPads(Image(volume, f), VolumeSpace(volume), p, w);
    Plus16(16, Up16(|volume| + 1));
    PadIsWide(f.file, VolumeSpace(volume));
  }

  /** The zeros at the end of the image of an empty tree. */
  lemma EmptyTail(volume: seq<Byte>, n: nat)
    requires |volume| < 256 && n == Tail(VolumeSpace(volume))
    ensures n >= 16 && Holds(Image(volume, Nil), VolumeSpace(volume), Zeros(n))
  {
    FramedEnds(volume, VolumeSpace(volume));
    HoldsElsewhere(Stream(volume, Nil), Image(volume, Nil), VolumeSpace(volume), Zeros(n));
  }

  /** Wrongly started, the reader stands on zeros: in the padding of the volume
      name, in that of the first entry, or behind an empty tree. */
  lemma StartsOnZeros(volume: seq<Byte>, f: Forest, image: seq<Byte>)
    requires Writable(volume, f) && |volume| < 256 && !StartsRight(volume, f)
    requires image == Image(volume, f)
    ensures Chain(image, FirstHeader(image), [FirstHeader(image)])
  {
    ImageNamed(volume, f);
    if |volume| % 16 == 0 {
      ImageHoldsName(volume, f);
      StartsInName(image, volume);
    } else if f.Cons? {
      FirstPadding(volume, f, Pad(f.file, VolumeSpace(volume)));
      StartsBehindName(image, volume, Pad(f.file, VolumeSpace(volume)));
    } else {
      EmptyTail(volume, Tail(VolumeSpace(volume)));
      StartsBehindName(image, volume, Tail(VolumeSpace(volume)));
    }
  }

  lemma FramedEnds(volume: seq<Byte>, last: nat)
    ensures Holds(Framed(volume, last, []), VolumeSpace(volume), Zeros(Tail(last)))
  {
    var s := Framed(volume, last, []);
    assert s[VolumeSpace(volume)..VolumeSpace(volume) + Tail(last)] == Zeros(Tail(last));
    HoldsSlice(s, VolumeSpace(volume), Zeros(Tail(last)));
  }

  /** What lookups answer then: no entry is found, whatever the tree holds; only
      the volume's own header is, under the volume's name. */
  lemma LookupWhenStartedWrong(volume: seq<Byte>, f: Forest, name: seq<Byte>)
    requires Writable(volume, f) && |volume| < 256 && !StartsRight(volume, f)
    ensures var image := Image(volume, f);
            var chain := [FirstHeader(image)];
            && Chain(image, FirstHeader(image), chain) && chain[1..] == []
            && Lookup(image, name, []) == if volume == name then Some(INode(0, LastOffset(volume, f))) else None
  {
    StartsOnZeros(volume, f, Image(volume, f));
    ImageNamed(volume, f);
  }

  /** With a volume name of 256 characters or more the reader starts within the
      name and takes four of its characters for the next offset, which is
      sixteen megabytes or more: no walk through a smaller image ends. */
  lemma LookupInLongName(volume: seq<Byte>, f: Forest)
    requires Writable(volume, f) && |volume| >= 256
    ensures var image := Image(volume, f);
            && FirstHeader(image) + 4 <= |image| && Next(image, FirstHeader(image)) >= 0x100_0000
            && (|image| <= 0x100_0000 ==> forall chain :: !Chain(image, FirstHeader(image), chain))
  {
    var image := Image(volume, f);
    ImageNamed(volume, f);
    ImageHoldsName(volume, f);
    StartsInLongName(image, volume);
    if |image| <= 0x100_0000 {
      LeadsOut(image, FirstHeader(image));
    }
  }

  lemma {:induction false} StartsInLongName(image: seq<Byte>, volume: seq<Byte>)
    requires Holds(image, 16, PaddedName(volume)) && CStr(image, 16) == volume && |volume| >= 256
    requires forall i :: 0 <= i < |volume| ==> volume[i] != 0
    ensures FirstHeader(image) + 4 <= |image| && Next(image, FirstHeader(image)) >= 0x100_0000
  {
    StepOverName(|volume|, 0);
    var padded, at := PaddedName(volume), FirstHeader(image);
    HoldsSlice(image, 16, padded);
    assert padded[at - 16] == volume[at - 16];
    assert image[at] == image[16..16 + |padded|][at - 16];
    WordOfFour(image, at);
    HighWord(image[at], Word(image, at));
  }

  lemma HighWord(high: nat, w: nat)
    requires high > 0 && w >= high * 0x100_0000
    ensures w - w % 16 >= 0x100_0000
  {
  }

  lemma ChainStarts(image: seq<Byte>, at: nat, chain: seq<nat>)
    ensures Chain(image, at, chain) ==> at != 0 && at + 16 <= |image|
  {
  }

  lemma LeadsOut(image: seq<Byte>, at: nat)
    requires at + 4 <= |image| && Next(image, at) >= |image|
    ensures forall chain :: !Chain(image, at, chain)
  {
    forall chain: seq<nat> ensures !Chain(image, at, chain) {
      if |chain| > 1 {
        ChainStarts(image, Next(image, at), chain[1..]);
      }
    }
  }

  lemma FirstOfPadded(image: seq<Byte>, volume: seq<Byte>)
    requires CStr(image, 16) == volume && |volume| == 1
    ensures FirstHeader(image) == 32 && VolumeSpace(volume) == 32
  {
    StartOf(image, volume);
  }

  /** A tree of one empty directory "." that is aligned to 64 bytes. */
  function AlignedDot(): (f: Forest)
    ensures Wf(f)
  {
    Cons(File([46], Directory, true, 0, [], 64, 0), Nil, Nil)
  }

  lemma AlignedDotEnds()
    ensures Pad(AlignedDot().file, 32) == 32 && EndOf(AlignedDot(), 32) == 96
  {
    assert HeaderSpace(AlignedDot().file) == 32 && Space(AlignedDot().file) == 32;
  }

  /** In its image with the volume name "r" the reader starts at 32 and the header is at 64. */
  lemma AlignedStartFails()
    ensures Writable([114], AlignedDot())
    ensures FirstHeader(Image([114], AlignedDot())) == 32 && OffsetOf(Nodes([114], AlignedDot())) == 64
  {
    AlignedDotEnds();
    ImageNamed([114], AlignedDot());
    FirstOfPadded(Image([114], AlignedDot()), [114]);
    FirstOffset([114], AlignedDot());
  }

  /** The headers the reader comes through are those of the top-level entries. */
  lemma ReaderFollowsSiblings(volume: seq<Byte>, f: Forest)
    requires Readable(volume, f)
    ensures Chain(Image(volume, f), FirstHeader(Image(volume, f)), Siblings(Nodes(volume, f)))
  {
    var image, p := Image(volume, f), Nodes(volume, f);
    ImageHoldsTree(volume, f);
    StartAgrees(volume, f);
    SiblingsChain(image, p, Offsets(p));
  }

  /** What `romfs_namei` finds in the image of any tree: the first entry behind
      the first one that has the name, and otherwise the volume's own header if
      that has it. */
  lemma NameiFinds(volume: seq<Byte>, f: Forest, name: seq<Byte>)
    requires Readable(volume, f)
    ensures var p := Nodes(volume, f);
            var q := Find(p.rest, name);
            && p.At? && (forall i :: 0 <= i < |Siblings(p)| ==> Siblings(p)[i] + 12 <= |Image(volume, f)|)
            && Lookup(Image(volume, f), name, Siblings(p)[1..])
            == if q.At? then Some(INode(q.offset, Size(q.file) % WORD))
               else if volume == name then Some(INode(0, LastOffset(volume, f))) else None
  {
    var p := Nodes(volume, f);
    ImageHoldsTree(volume, f);
    ImageNamed(volume, f);
    LookupFinds(Image(volume, f), p, Offsets(p), name);
    LookupFinds(Image(volume, f), p.rest, Offsets(p), name);
    assert Siblings(p)[1..] == Siblings(p.rest);
  }

  // ---- Reading the content

  /** `romfs_get_daddr` points to the content of a file exactly when its padded
      name takes 16 bytes, which it takes for granted. */
  lemma DataAddress(at: nat, f: File)
    requires at % 16 == 0 && Size(f) > 0
    ensures GetDaddr(INode(at, Size(f))) == at + HeaderSpace(f) <==> |f.name| <= 15
  {
  }

  lemma {:induction false} FindWithin(p: Placed, name: seq<Byte>)
    ensures var q := Find(p, name); q.At? ==> Within(q, p) && q.file.name == name
    decreases p
  {
    if p.At? {
      FindWithin(p.rest, name);
    }
  }

  lemma ContentHeld(image: seq<Byte>, at: nat, f: File)
    requires Holds(image, at, Content(f)) && f.kind.Regular? && |f.data| >= f.size
    ensures at + f.size <= |image| && image[at..at + f.size] == f.data[..f.size]
  {
    var got, zeros := f.data[..f.size], Zeros(Up16(f.size) - f.size);
    assert Content(f) == got + zeros;
    HoldsParts(image, at, got, zeros);
    HoldsSlice(image, at, got);
  }

  /** The file in `q` can be read from the image: its address and size are right
      and what is there is its data. */
  ghost predicate ReadsFile(image: seq<Byte>, inode: INode, f: File)
    requires |f.data| >= f.size
  {
    && inode.dsize == f.size && GetDaddr(inode) + f.size <= |image|
    && image[GetDaddr(inode)..GetDaddr(inode) + f.size] == f.data[..f.size]
  }

  lemma ContentAt(image: seq<Byte>, p: Placed, q: Placed, headers: seq<nat>)
    requires AllAt(image, p, NodeWriter(headers)) && Within(q, p)
    ensures Holds(image, q.offset + HeaderSpace(q.file), Content(q.file))
  {
    WithinAt(image, p, NodeWriter(headers), q);
    WriterWrites(headers, q);
    NodeParts(image, q, headers);
  }

  lemma HeldReads(image: seq<Byte>, at: nat, f: File)
    requires Holds(image, at + HeaderSpace(f), Content(f)) && at % 16 == 0
    requires |f.name| <= 15 && f.kind.Regular? && 0 < f.size < WORD && |f.data| >= f.size
    ensures ReadsFile(image, INode(at, f.size), f)
  {
    DataAddress(at, f);
    ContentHeld(image, at + HeaderSpace(f), f);
  }

  lemma FileReads(image: seq<Byte>, p: Placed, q: Placed, headers: seq<nat>)
    requires AllAt(image, p, NodeWriter(headers)) && Within(q, p) && q.offset % 16 == 0
    requires |q.file.name| <= 15 && q.file.kind.Regular? && 0 < q.file.size < WORD && |q.file.data| >= q.file.size
    ensures ReadsFile(image, INode(q.offset, q.file.size), q.file)
  {
    ContentAt(image, p, q, headers);
    HeldReads(image, q.offset, q.file);
  }

  /** Writing a tree, looking up a regular top-level file by name and reading as
      many bytes as its inode says from its data address gives back the file. */
  lemma RoundTrip(volume: seq<Byte>, f: Forest, name: seq<Byte>, q: Placed)
    requires Readable(volume, f) && |name| <= 15
    requires Nodes(volume, f).At? && q == Find(Nodes(volume, f).rest, name)
    requires q.At? && q.file.kind.Regular? && 0 < q.file.size < WORD && |q.file.data| >= q.file.size
    ensures var image, chain := Image(volume, f), Siblings(Nodes(volume, f));
            && Chain(image, FirstHeader(image), chain)
            && (forall i :: 0 <= i < |chain| ==> chain[i] + 12 <= |image|)
            && Lookup(image, name, chain[1..]).Some?
            && ReadsFile(image, Lookup(image, name, chain[1..]).value, q.file)
  {
    var p := Nodes(volume, f);
    ReaderFollowsSiblings(volume, f);
    NameiFinds(volume, f, name);
    FindWithin(p.rest, name);
    assert Within(q, p);
    ImageHoldsTree(volume, f);
    WithinReadsBack(Image(volume, f), p, Offsets(p), q);
    SmallMod(q.file.size);
    FileReads(Image(volume, f), p, q, Offsets(p));
  }
}
