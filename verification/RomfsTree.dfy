/** What a reader that knows the format and nothing of the writer makes of an
    image: the tree it finds by following words of the image from the first
    header on is the tree that was written. */
module RomfsTree {
  import opened RomfsBytes
  import opened RomfsLayout
  import opened RomfsWriter
  import opened RomfsReader
  import opened RomfsRoundTrip

  // ---- The format

  /** The first word of a header without the lowest four bits: the next header. */
  function NextWord(image: seq<Byte>, at: nat): nat
    requires at + 4 <= |image|
  {
    Word(image, at) / 16 * 16
  }

  /** Where the data of a header stands: behind sixteen bytes and the name, which
      takes a multiple of sixteen bytes with its NUL. */
  function DataStart(at: nat, name: seq<Byte>): nat {
    at + 16 + (|name| / 16 + 1) * 16
  }

  /** The lowest three bits of the first word. */
  function KindNumber(k: Kind): nat {
    if k.HardLink? then 0 else if k.Directory? then 1 else if k.Regular? then 2 else if k.SymLink? then 3
    else if k.Block? then 4 else if k.Char? then 5 else if k.Socket? then 6 else 7
  }

  /** The bytes `data`, or as many of them as `size` says, and zeros if there are fewer. */
  predicate ShowsData(image: seq<Byte>, at: nat, data: seq<Byte>, size: nat) {
    at + size <= |image| && forall k: nat :: k < size ==> image[at + k] == if k < |data| then data[k] else 0
  }

  /** The header at `at`, and what belongs to it, shows the file. */
  predicate ShowsFile(image: seq<Byte>, at: nat, file: File, headers: seq<nat>) {
    && at > 0 && at % 16 == 0 && at + 16 <= |image| && CStr(image, at + 16) == file.name
    && Word(image, at) % 8 == KindNumber(file.kind)
    && Word(image, at) / 8 % 2 == (if file.exec && (file.kind.Directory? || file.kind.Regular?) then 1 else 0)
    && match file.kind
       case HardLink(t) => Word(image, at + 8) == 0 && (t < |headers| ==> Word(image, at + 4) == headers[t])
       case Directory => Word(image, at + 8) == 0
       case Regular =>
         && Word(image, at + 4) == 0 && Word(image, at + 8) == file.size % WORD
         && ShowsData(image, DataStart(at, file.name), file.data, file.size)
       case SymLink =>
         && Word(image, at + 4) == 0 && Word(image, at + 8) == file.size % WORD
         && ShowsData(image, DataStart(at, file.name), file.data, file.size)
       case Block => Word(image, at + 4) == file.dev % WORD && Word(image, at + 8) == 0
       case Char => Word(image, at + 4) == file.dev % WORD && Word(image, at + 8) == 0
       case Socket => Word(image, at + 4) == 0 && Word(image, at + 8) == 0
       case Fifo => Word(image, at + 4) == 0 && Word(image, at + 8) == 0
  }

  /** From `at` on the image shows the list `f`: the first word of each header
      leads to the next entry, or to 0 behind the last one, and the second word of
      a directory to its first entry, or to itself if it has none. */
  predicate Shows(image: seq<Byte>, at: nat, f: Forest, headers: seq<nat>)
    decreases f
  {
    match f
    case Nil => at == 0
    case Cons(file, kids, rest) =>
      && ShowsFile(image, at, file, headers)
      && (file.kind.Directory? ==>
            if kids.Nil? then Word(image, at + 4) == at else Shows(image, Word(image, at + 4), kids, headers))
      && Shows(image, NextWord(image, at), rest, headers)
  }

  /** The headers found that way: those of an entry, of what is below it, and of its later siblings. */
  function Found(image: seq<Byte>, at: nat, f: Forest): seq<nat>
    decreases f
  {
    if f.Nil? || at + 8 > |image| then []
    else
      [at] + (if f.kids.Nil? then [] else Found(image, Word(image, at + 4), f.kids))
      + Found(image, NextWord(image, at), f.rest)
  }

  // ---- The image shows the tree

  lemma TypeWord(next: nat, file: File, w: nat)
    requires next % 16 == 0 && w == next + TypeBits(file)
    ensures w / 16 * 16 == next && w % 8 == KindNumber(file.kind)
    ensures w / 8 % 2 == if file.exec && (file.kind.Directory? || file.kind.Regular?) then 1 else 0
  {
    var t := TypeBits(file);
    assert w == 16 * (next / 16) + t;
    assert t < 16 && t % 8 == KindNumber(file.kind);
    assert w / 16 == next / 16 && w % 16 == t;
    assert w % 8 == t % 8 && w / 8 == 2 * (next / 16) + t / 8;
  }

  lemma NameSpace(n: nat)
    ensures Up16(n + 1) == (n / 16 + 1) * 16
  {
  }

  lemma DataShown(image: seq<Byte>, at: nat, f: File)
    requires Holds(image, at, Content(f)) && (f.kind.Regular? || f.kind.SymLink?)
    ensures ShowsData(image, at, f.data, f.size)
  {
    HoldsSlice(image, at, Content(f));
    forall k: nat | k < f.size ensures image[at + k] == if k < |f.data| then f.data[k] else 0 {
      assert image[at..at + |Content(f)|][k] == Content(f)[k];
    }
  }

  lemma FileShown(image: seq<Byte>, q: Placed, offsets: seq<nat>)
    requires q.At? && Legible(image, q, offsets) && (q.rest.At? ==> q.rest.offset % 16 == 0)
    requires Holds(image, q.offset + HeaderSpace(q.file), Content(q.file))
    requires forall i :: 0 <= i < |offsets| ==> offsets[i] < WORD
    requires q.offset + 16 <= WORD && (q.kids.At? ==> q.kids.offset < WORD)
    ensures ShowsFile(image, q.offset, q.file, offsets)
    ensures NextWord(image, q.offset) == OffsetOf(q.rest)
    ensures q.file.kind.Directory? ==>
              Word(image, q.offset + 4) == if q.kids.End? then q.offset else q.kids.offset
  {
    TypeWord(OffsetOf(q.rest), q.file, Word(image, q.offset));
    NameSpace(|q.file.name|);
    if q.file.kind.Regular? || q.file.kind.SymLink? {
      DataShown(image, DataStart(q.offset, q.file.name), q.file);
    }
    SmallMod(if q.file.kind.Directory? || (q.file.kind.HardLink? && q.file.kind.target < |offsets|)
             then Spec(q, offsets) else 0);
  }

  lemma HeadShown(image: seq<Byte>, p: Placed, offsets: seq<nat>)
    requires p.At? && Legible(image, p, offsets) && AllAt(image, p, NodeWriter(offsets)) && OnBoundaries(p)
    requires Between(p, 16, WORD) && forall i :: 0 <= i < |offsets| ==> offsets[i] < WORD
    ensures ShowsFile(image, p.offset, p.file, offsets) && NextWord(image, p.offset) == OffsetOf(p.rest)
    ensures p.file.kind.Directory? ==>
              Word(image, p.offset + 4) == if p.kids.End? then p.offset else p.kids.offset
  {
    ContentAt(image, p, p, offsets);
    FileShown(image, p, offsets);
  }

  lemma PlacedBelow(p: Placed)
    requires p.At? && Between(p, 16, WORD)
    ensures Between(p.kids, 16, WORD) && Between(p.rest, 16, WORD)
  {
    Widen(p.kids, p.offset + 1, WORD, 16, WORD);
    Widen(p.rest, p.offset + 1, WORD, 16, WORD);
  }

  /** `p` is the tree `f`, placed somehow. */
  predicate Mirrors(f: Forest, p: Placed) {
    match f
    case Nil => p.End?
    case Cons(file, kids, rest) => p.At? && p.file == file && Mirrors(kids, p.kids) && Mirrors(rest, p.rest)
  }

  lemma {:induction false} PlaceMirrors(f: Forest, cur: nat)
    requires Wf(f)
    ensures Mirrors(f, Place(f, cur))
  {
    if f.Cons? {
      var below := cur + Pad(f.file, cur) + Space(f.file);
      PlaceMirrors(f.kids, below);
      PlaceMirrors(f.rest, EndOf(f.kids, below));
    }
  }

  lemma {:induction false} PlacedShown(image: seq<Byte>, f: Forest, p: Placed, offsets: seq<nat>)
    requires Wf(f) && Mirrors(f, p) && ReadsBack(image, p, offsets) && AllAt(image, p, NodeWriter(offsets))
    requires OnBoundaries(p) && Between(p, 16, WORD) && forall i :: 0 <= i < |offsets| ==> offsets[i] < WORD
    ensures Shows(image, OffsetOf(p), f, offsets)
    decreases f
  {
    if f.Cons? {
      HeadShown(image, p, offsets);
      PlacedBelow(p);
      PlacedShown(image, f.kids, p.kids, offsets);
      PlacedShown(image, f.rest, p.rest, offsets);
    }
  }

  /** The words of the image lead from every node of `p` to its entries and its next sibling. */
  predicate Linked(image: seq<Byte>, p: Placed) {
    p.At? ==>
      && p.offset + 8 <= |image| && NextWord(image, p.offset) == OffsetOf(p.rest)
      && (p.kids.At? ==> Word(image, p.offset + 4) == p.kids.offset)
      && Linked(image, p.kids) && Linked(image, p.rest)
  }

  lemma {:induction false} PlacedLinked(image: seq<Byte>, f: Forest, p: Placed, offsets: seq<nat>)
    requires Wf(f) && Mirrors(f, p) && ReadsBack(image, p, offsets) && AllAt(image, p, NodeWriter(offsets))
    requires OnBoundaries(p) && Between(p, 16, WORD) && forall i :: 0 <= i < |offsets| ==> offsets[i] < WORD
    ensures Linked(image, p)
    decreases f
  {
    if f.Cons? {
      HeadShown(image, p, offsets);
      PlacedBelow(p);
      PlacedLinked(image, f.kids, p.kids, offsets);
      PlacedLinked(image, f.rest, p.rest, offsets);
    }
  }

  lemma {:induction false} LinkedFound(image: seq<Byte>, f: Forest, p: Placed)
    requires Mirrors(f, p) && Linked(image, p)
    ensures Found(image, OffsetOf(p), f) == Offsets(p)
    decreases f
  {
    if f.Cons? {
      LinkedFound(image, f.kids, p.kids);
      LinkedFound(image, f.rest, p.rest);
    }
  }

  lemma FirstAt(volume: seq<Byte>, f: Forest)
    requires Wf(f)
    ensures OffsetOf(Nodes(volume, f))
         == if f.Nil? then 0 else 16 + (|volume| / 16 + 1) * 16 + Pad(f.file, 16 + (|volume| / 16 + 1) * 16)
  {
    NameSpace(|volume|);
  }

  /** Whoever follows the words of the image from its first header on finds the
      whole tree, every file with its kind, its size, its content or target, every
      directory with its entries, and every hard link leading to its target. */
  lemma ImageShowsTree(volume: seq<Byte>, f: Forest, image: seq<Byte>, first: nat)
    requires Wf(f) && LastOffset(volume, f) < WORD && image == Image(volume, f)
    requires first == if f.Nil? then 0 else 16 + (|volume| / 16 + 1) * 16 + Pad(f.file, 16 + (|volume| / 16 + 1) * 16)
    ensures Shows(image, first, f, Found(image, first, f)) && |Found(image, first, f)| == Headers(f)
  {
    var cur, p := VolumeSpace(volume), Nodes(volume, f);
    FirstAt(volume, f);
    ImageHoldsTree(volume, f);
    TreeInRange(volume, f);
    OffsetsBetween(p, 16, WORD);
    PlacedHeaders(f, cur);
    PlaceMirrors(f, cur);
    PlacedShown(image, f, p, Offsets(p));
    PlacedLinked(image, f, p, Offsets(p));
    LinkedFound(image, f, p);
  }

  /** The second word of every directory leads to the chain of its entries, or to
      the directory itself if it has none. */
  lemma DirectoriesLeadOn(volume: seq<Byte>, f: Forest, q: Placed)
    requires Wf(f) && LastOffset(volume, f) < WORD && Within(q, Nodes(volume, f)) && q.file.kind.Directory?
    ensures var image := Image(volume, f);
            && q.offset + 16 <= |image|
            && Word(image, q.offset + 4) == (if q.kids.At? then q.kids.offset else q.offset)
            && (q.kids.At? ==> Chain(image, Word(image, q.offset + 4), Siblings(q.kids)))
  {
    ImageHoldsTree(volume, f);
    TreeInRange(volume, f);
    LeadsOn(Image(volume, f), Nodes(volume, f), Offsets(Nodes(volume, f)), q);
  }

  lemma LeadsOn(image: seq<Byte>, p: Placed, offsets: seq<nat>, q: Placed)
    requires ReadsBack(image, p, offsets) && Between(p, 16, WORD) && Within(q, p) && q.file.kind.Directory?
    ensures q.offset + 16 <= |image|
    ensures Word(image, q.offset + 4) == if q.kids.At? then q.kids.offset else q.offset
    ensures q.kids.At? ==> Chain(image, Word(image, q.offset + 4), Siblings(q.kids))
  {
    WithinReadsBack(image, p, offsets, q);
    WithinBetween(p, q, 16, WORD);
    SmallMod(Spec(q, offsets));
    if q.kids.At? {
      SiblingsChain(image, q.kids, offsets);
    }
  }

  // ---- The volume

  lemma FramedHasMagic(volume: seq<Byte>, last: nat, nodes: seq<Byte>)
    ensures |Framed(volume, last, nodes)| >= 8
    ensures Framed(volume, last, nodes)[..8] == [0x2d, 0x72, 0x6f, 0x6d, 0x31, 0x66, 0x73, 0x2d]
  {
    var head := RawHeader(MAGIC0, MAGIC1, last, volume);
    assert Framed(volume, last, nodes) == head + (nodes + Zeros(Tail(last)));
    assert head[..8] == head[..12][..8] == Big(MAGIC0) + Big(MAGIC1);
    assert Big(MAGIC0) == [0x2d, 0x72, 0x6f, 0x6d] && Big(MAGIC1) == [0x31, 0x66, 0x73, 0x2d];
  }

  /** The image begins with the eight characters of the format, the size of the
      volume and, behind the checksum, its name. */
  lemma ImageHasMagic(volume: seq<Byte>, f: Forest)
    requires Wf(f) && LastOffset(volume, f) < WORD && forall i :: 0 <= i < |volume| ==> volume[i] != 0
    ensures var image := Image(volume, f);
            && |image| >= 1024 && image[..8] == [0x2d, 0x72, 0x6f, 0x6d, 0x31, 0x66, 0x73, 0x2d]
            && Word(image, 8) == LastOffset(volume, f) && CStr(image, 16) == volume
  {
    ImageNamed(volume, f);
    var p := Nodes(volume, f);
    FramedHasMagic(volume, LastOffset(volume, f), Emit(p, NodeWriter(Offsets(p))));
    assert Image(volume, f)[..8] == Stream(volume, f)[..8];
  }
}
