/** The two passes of the image writer: the first gives every node its offset,
    the second emits the bytes.  They agree on where everything is. */
module RomfsLayout {
  import opened Bits
  import opened RomfsBytes

  /** A hard link names its target by its place in the order of the headers. */
  datatype Kind = HardLink(target: nat) | Directory | Regular | SymLink | Block | Char | Socket | Fifo

  /** What the directory pass learns about one file: `size` is what stat said,
      `data` what reading it yields. */
  datatype File = File(name: seq<Byte>, kind: Kind, exec: bool, size: nat, data: seq<Byte>, align: nat, dev: nat)

  /** A directory list: a file, what is below it, and its later siblings. */
  datatype Forest = Nil | Cons(file: File, kids: Forest, rest: Forest)

  /** The same list once every node has its offset and padding. */
  datatype Placed = End | At(file: File, offset: nat, pad: nat, kids: Placed, rest: Placed)

  // ---- First pass

  /** The `size` field of the node: only files and symbolic links have one. */
  function Size(f: File): nat {
    if f.kind.Regular? || f.kind.SymLink? then f.size else 0
  }

  /** The header with its padded name. */
  function HeaderSpace(f: File): (r: nat)
    ensures r % 16 == 0
  {
    Plus16(16, Up16(|f.name| + 1));
    16 + Up16(|f.name| + 1)
  }

  /** `spaceneeded`. */
  function Space(f: File): (r: nat)
    ensures r % 16 == 0
  {
    Plus16(HeaderSpace(f), Up16(Size(f)));
    HeaderSpace(f) + Up16(Size(f))
  }

  /** How far `x` is from the next multiple of `a`. */
  function PadTo(x: nat, a: nat): nat
    requires a > 0
  {
    if Rem(x, a) != 0 then a - Rem(x, a) else 0
  }

  /** What `alignnode` adds at `cur`: a regular file is aligned by its data,
      everything else by its header. */
  function Pad(f: File, cur: nat): nat
    requires f.align > 0
  {
    PadTo(cur + if f.kind.Regular? then HeaderSpace(f) else 0, f.align)
  }

  /** Names are C strings, alignments are what the options allow, and only a
      directory has something below it. */
  predicate Wf(f: Forest) {
    match f
    case Nil => true
    case Cons(file, kids, rest) =>
      && (forall i :: 0 <= i < |file.name| ==> file.name[i] != 0)
      && file.align > 0 && file.align % 16 == 0
      && (!file.kind.Directory? ==> kids.Nil?)
      && Wf(kids) && Wf(rest)
  }

  function Headers(f: Forest): nat {
    match f
    case Nil => 0
    case Cons(_, kids, rest) => 1 + Headers(kids) + Headers(rest)
  }

  /** Every hard link in `f` leads to one of `n` headers. */
  predicate LinksIn(f: Forest, n: nat) {
    match f
    case Nil => true
    case Cons(file, kids, rest) =>
      (file.kind.HardLink? ==> file.kind.target < n) && LinksIn(kids, n) && LinksIn(rest, n)
  }

  /** The offset after everything in `f`, placed from `cur`: what `processdir` returns. */
  function EndOf(f: Forest, cur: nat): nat
    requires Wf(f)
  {
    match f
    case Nil => cur
    case Cons(file, kids, rest) => EndOf(rest, EndOf(kids, cur + Pad(file, cur) + Space(file)))
  }

  /** `processdir`. */
  function Place(f: Forest, cur: nat): Placed
    requires Wf(f)
  {
    match f
    case Nil => End
    case Cons(file, kids, rest) =>
      var pad := Pad(file, cur);
      var below := cur + pad + Space(file);
      At(file, cur + pad, pad, Place(kids, below), Place(rest, EndOf(kids, below)))
  }

  // ---- Second pass

  function TypeNumber(k: Kind): nat {
    match k
    case HardLink(_) => 0
    case Directory => 1
    case Regular => 2
    case SymLink => 3
    case Block => 4
    case Char => 5
    case Socket => 6
    case Fifo => 7
  }

  const EXEC: nat := 8

  function TypeBits(f: File): (t: nat)
    ensures t < 16
  {
    TypeNumber(f.kind) + if f.exec && (f.kind.Directory? || f.kind.Regular?) then EXEC else 0
  }

  function OffsetOf(p: Placed): nat {
    if p.At? then p.offset else 0
  }

  /** The `spec` field: where a link or a directory points, or a device number. */
  function Spec(p: Placed, offsets: seq<nat>): nat
    requires p.At?
  {
    match p.file.kind
    case HardLink(t) => if t < |offsets| then offsets[t] else 0
    case Directory => if p.kids.End? then p.offset else p.kids.offset
    case Block => p.file.dev
    case Char => p.file.dev
    case _ => 0
  }

  function PaddedName(name: seq<Byte>): (b: seq<Byte>)
    ensures |b| == Up16(|name| + 1)
  {
    name + Zeros(Up16(|name| + 1) - |name|)
  }

  const PLACEHOLDER := 0x5555_5555

  /** The four words of a header, before its checksum is known. */
  function Fields(next: nat, spec: nat, size: nat, sum: nat): (b: seq<Byte>)
    ensures |b| == 16 && b[..12] == Big(next) + Big(spec) + Big(size)
  {
    Big(next) + Big(spec) + Big(size) + Big(sum)
  }

  function RawHeader(next: nat, spec: nat, size: nat, name: seq<Byte>): (b: seq<Byte>)
    ensures |b| == 16 + Up16(|name| + 1) && |b| % 16 == 0
    ensures b[..12] == Big(next) + Big(spec) + Big(size) && b[16..] == PaddedName(name)
  {
    Fields(next, spec, size, PLACEHOLDER) + PaddedName(name)
  }

  /** The words of a header, wherever it stands. */
  lemma HeaderWords(next: nat, spec: nat, size: nat, b: seq<Byte>, at: nat)
    requires Holds(b, at, Big(next) + Big(spec) + Big(size))
    ensures at + 12 <= |b|
    ensures Word(b, at) == next % WORD && Word(b, at + 4) == spec % WORD && Word(b, at + 8) == size % WORD
  {
    HoldsParts(b, at, Big(next) + Big(spec), Big(size));
    HoldsParts(b, at, Big(next), Big(spec));
    WordOfBig(b, at, next);
    WordOfBig(b, at + 4, spec);
    WordOfBig(b, at + 8, size);
  }

  /** What `dumpri` writes: the header, summed unless it is the volume's. */
  function HeaderBytes(next: nat, spec: nat, size: nat, name: seq<Byte>, summed: bool): (b: seq<Byte>)
    ensures |b| == 16 + Up16(|name| + 1) && |b| % 16 == 0
    ensures b[..12] == Big(next) + Big(spec) + Big(size) && b[16..] == PaddedName(name)
    ensures summed ==> Sum(b) == 0
  {
    var raw := RawHeader(next, spec, size, name);
    if summed then Summed(raw) else raw
  }

  /** The header of a node. */
  function Header(p: Placed, offsets: seq<nat>): (b: seq<Byte>)
    requires p.At?
    ensures |b| == HeaderSpace(p.file)
    ensures b[..12] == Big(OffsetOf(p.rest) + TypeBits(p.file)) + Big(Spec(p, offsets)) + Big(Size(p.file))
    ensures b[16..] == PaddedName(p.file.name)
    ensures p.offset != 0 ==> Sum(b) == 0
  {
    HeaderBytes(OffsetOf(p.rest) + TypeBits(p.file), Spec(p, offsets), Size(p.file), p.file.name, p.offset != 0)
  }

  /** What was read of the file, filled up with zeros to its size and to a multiple of 16. */
  function Content(f: File): (b: seq<Byte>)
    ensures |b| == Up16(Size(f))
  {
    var got := if |f.data| > Size(f) then f.data[..Size(f)] else f.data;
    got + Zeros(Up16(Size(f)) - |got|)
  }

  /** What `dumpnode` writes for the node itself, behind its padding. */
  function NodeBytes(p: Placed, offsets: seq<nat>): (b: seq<Byte>)
    requires p.At?
    ensures |b| == Space(p.file)
  {
    Header(p, offsets) + Content(p.file)
  }

  /** What is written for a node, as a function of the node. */
  type Writer = Placed -> seq<Byte>

  function NodeWriter(offsets: seq<nat>): Writer {
    (p: Placed) => if p.At? then NodeBytes(p, offsets) else []
  }

  /** The writer takes exactly the space the first pass reserved. */
  ghost predicate Fits(w: Writer) {
    forall p: Placed :: p.At? ==> |w(p)| == Space(p.file)
  }

  /** `dumpnode` over a list. */
  function Emit(p: Placed, w: Writer): seq<Byte> {
    match p
    case End => []
    case At(_, _, pad, kids, rest) => Zeros(pad) + w(p) + Emit(kids, w) + Emit(rest, w)
  }

  /** The offsets in the order in which the headers are emitted. */
  function Offsets(p: Placed): seq<nat> {
    match p
    case End => []
    case At(_, offset, _, kids, rest) => [offset] + Offsets(kids) + Offsets(rest)
  }

  // ---- The passes agree

  /** How many bytes the second pass writes. */
  function Bulk(p: Placed): nat {
    match p
    case End => 0
    case At(file, _, pad, kids, rest) => pad + Space(file) + Bulk(kids) + Bulk(rest)
  }

  lemma {:induction false} EmitLength(p: Placed, w: Writer)
    requires Fits(w)
    ensures |Emit(p, w)| == Bulk(p)
  {
    if p.At? {
      EmitLength(p.kids, w);
      EmitLength(p.rest, w);
    }
  }

  /** Everything emitted for `f` fits exactly between the offsets of the first pass. */
  lemma {:induction false} PassesAgree(f: Forest, cur: nat)
    requires Wf(f)
    ensures cur + Bulk(Place(f, cur)) == EndOf(f, cur)
  {
    if f.Cons? {
      var pad := Pad(f.file, cur);
      var below := cur + pad + Space(f.file);
      PassesAgree(f.kids, below);
      PassesAgree(f.rest, EndOf(f.kids, below));
    }
  }

  /** `p` has the offsets the first pass gives from `cur`. */
  predicate Consecutive(p: Placed, cur: nat) {
    match p
    case End => true
    case At(file, offset, pad, kids, rest) =>
      && offset == cur + pad && Consecutive(kids, offset + Space(file))
      && Consecutive(rest, offset + Space(file) + Bulk(kids))
  }

  lemma {:induction false} PlaceIsConsecutive(f: Forest, cur: nat)
    requires Wf(f)
    ensures Consecutive(Place(f, cur), cur)
  {
    if f.Cons? {
      var pad := Pad(f.file, cur);
      var below := cur + pad + Space(f.file);
      PassesAgree(f.kids, below);
      PlaceIsConsecutive(f.kids, below);
      PlaceIsConsecutive(f.rest, EndOf(f.kids, below));
    }
  }

  /** `q` is one of the nodes of `p`. */
  predicate Within(q: Placed, p: Placed) {
    q.At? && p.At? && (q == p || Within(q, p.kids) || Within(q, p.rest))
  }

  lemma EmitParts(image: seq<Byte>, at: nat, p: Placed, w: Writer, below: nat)
    requires p.At? && Fits(w) && Holds(image, at, Emit(p, w)) && below == at + p.pad + Space(p.file)
    ensures Holds(image, at + p.pad, w(p))
    ensures Holds(image, below, Emit(p.kids, w))
    ensures Holds(image, below + Bulk(p.kids), Emit(p.rest, w))
  {
    var pad, node, kids, rest := Zeros(p.pad), w(p), Emit(p.kids, w), Emit(p.rest, w);
    EmitLength(p.kids, w);
    HoldsParts(image, at, pad + node + kids, rest);
    HoldsParts(image, at, pad + node, kids);
    HoldsParts(image, at, pad, node);
  }

  /** What was written for every node of `p` is where its offset says. */
  predicate AllAt(image: seq<Byte>, p: Placed, w: Writer) {
    p.At? ==> Holds(image, p.offset, w(p)) && AllAt(image, p.kids, w) && AllAt(image, p.rest, w)
  }

  /** Where `dumpnode` starts any node is the offset the first pass gave it. */
  lemma {:induction false} EmittedAtOffsets(p: Placed, cur: nat, w: Writer, image: seq<Byte>)
    requires Fits(w) && Consecutive(p, cur) && Holds(image, cur, Emit(p, w))
    ensures AllAt(image, p, w)
    decreases p
  {
    if p.At? {
      var below := cur + p.pad + Space(p.file);
      EmitParts(image, cur, p, w, below);
      EmittedAtOffsets(p.kids, below, w, image);
      EmittedAtOffsets(p.rest, below + Bulk(p.kids), w, image);
    }
  }

  lemma {:induction false} WithinAt(image: seq<Byte>, p: Placed, w: Writer, q: Placed)
    requires AllAt(image, p, w) && Within(q, p)
    ensures Holds(image, q.offset, w(q))
    decreases p
  {
    if q != p {
      if Within(q, p.kids) {
        WithinAt(image, p.kids, w, q);
      } else {
        WithinAt(image, p.rest, w, q);
      }
    }
  }

  lemma NodeParts(image: seq<Byte>, q: Placed, offsets: seq<nat>)
    requires q.At? && Holds(image, q.offset, NodeBytes(q, offsets))
    ensures Holds(image, q.offset, Header(q, offsets))
    ensures Holds(image, q.offset + HeaderSpace(q.file), Content(q.file))
  {
    HoldsParts(image, q.offset, Header(q, offsets), Content(q.file));
  }

  // ---- Alignment

  /** What `alignnode` adds, as it computes it: with `d` the bits of `x` below the alignment. */
  function MaskedPad(x: nat, align: nat): int
    requires align > 0
  {
    var d := And(x, align - 1);
    if d == 0 then 0 else align - d
  }

  /** For every alignment the options allow, a power of two, the padding computed
      by masking is the distance to the next multiple. */
  lemma MaskedPadIsPad(x: nat, k: nat)
    ensures MaskedPad(x, OneBit(k)) == PadTo(x, OneBit(k))
    ensures Rem(x + PadTo(x, OneBit(k)), OneBit(k)) == 0
  {
    MaskIsRem(x, k);
    PadToAligns(x, OneBit(k));
  }

  lemma {:induction false} PadToAligns(x: nat, a: nat)
    requires a > 0
    ensures Rem(x + PadTo(x, a), a) == 0
    decreases x
  {
    if x >= a {
      PadToAligns(x - a, a);
      assert Rem(x + PadTo(x, a), a) == Rem(x + PadTo(x, a) - a, a);
    } else if x > 0 {
      assert Rem(a, a) == Rem(0, a);
    }
  }

  lemma {:induction false} RemZeroOn16(x: nat, a: nat)
    requires a > 0 && a % 16 == 0 && Rem(x, a) == 0
    ensures x % 16 == 0
    decreases x
  {
    if x >= a {
      RemZeroOn16(x - a, a);
      Plus16(x - a, a);
    }
  }

  /** Padding keeps headers on multiples of 16, and puts the data of a regular
      file, or the header of anything else, on a multiple of its alignment. */
  lemma PadAligns(f: File, cur: nat)
    requires f.align > 0 && f.align % 16 == 0
    ensures (cur + Pad(f, cur)) % 16 == 0
    ensures Rem(cur + Pad(f, cur) + if f.kind.Regular? then HeaderSpace(f) else 0, f.align) == 0
  {
    var h: nat := if f.kind.Regular? then HeaderSpace(f) else 0;
    var x := cur + h;
    PadToAligns(x, f.align);
    RemZeroOn16(x + PadTo(x, f.align), f.align);
    Plus16(x + PadTo(x, f.align), h);
    assert x + PadTo(x, f.align) == cur + Pad(f, cur) + h;
  }

  /** Every offset the first pass gives is a multiple of 16, so the type bits fit below it. */
  predicate OnBoundaries(p: Placed) {
    p.At? ==> p.offset % 16 == 0 && OnBoundaries(p.kids) && OnBoundaries(p.rest)
  }

  lemma {:induction false} PlacedOnBoundaries(f: Forest, cur: nat)
    requires Wf(f) && cur % 16 == 0
    ensures OnBoundaries(Place(f, cur)) && EndOf(f, cur) % 16 == 0
  {
    if f.Cons? {
      var pad := Pad(f.file, cur);
      PadAligns(f.file, cur);
      Plus16(cur + pad, Space(f.file));
      var below := cur + pad + Space(f.file);
      PlacedOnBoundaries(f.kids, below);
      PlacedOnBoundaries(f.rest, EndOf(f.kids, below));
    }
  }
}
