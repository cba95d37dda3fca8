/** The reader in the kernel, and that it finds in an image what the writer put there. */
module RomfsReader {
  import opened RomfsBytes
  import opened RomfsLayout
  import opened RomfsWriter

  /** `daddr` is the offset of the header, `dsize` the size of the file. */
  datatype INode = INode(daddr: nat, dsize: nat)

  datatype Option<T> = None | Some(value: T)

  /** The C string at `at`. */
  function CStr(image: seq<Byte>, at: nat): seq<Byte>
    decreases |image| - at
  {
    if at >= |image| || image[at] == 0 then [] else [image[at]] + CStr(image, at + 1)
  }

  /** `s_strlen` counts in eight bits. */
  function StrLen(image: seq<Byte>, at: nat): nat {
    |CStr(image, at)| % 256
  }

  /** The offset of the next header: `nextfh` without its type bits. */
  function Next(image: seq<Byte>, at: nat): nat
    requires at + 4 <= |image|
  {
    Word(image, at) - Word(image, at) % 16
  }

  /** Where the reader looks for the first header. */
  function FirstHeader(image: seq<Byte>): nat {
    Up16(StrLen(image, 16) + 16)
  }

  /** The headers the reader comes through, starting at `at`. */
  ghost predicate Chain(image: seq<Byte>, at: nat, chain: seq<nat>)
    decreases |chain|
  {
    && |chain| > 0 && chain[0] == at && at != 0 && at + 16 <= |image|
    && if |chain| == 1 then Next(image, at) == 0 else Chain(image, Next(image, at), chain[1..])
  }

  /** What a walk over the headers `chain`, and then the volume's own, finds. */
  function Lookup(image: seq<Byte>, name: seq<Byte>, chain: seq<nat>): Option<INode>
    requires |image| >= 16 && (forall i :: 0 <= i < |chain| ==> chain[i] + 12 <= |image|)
    decreases |chain|
  {
    if chain == [] then
      if CStr(image, 16) == name then Some(INode(0, Word(image, 8))) else None
    else if CStr(image, chain[0] + 16) == name then Some(INode(chain[0], Word(image, chain[0] + 8)))
    else Lookup(image, name, chain[1..])
  }

  lemma {:induction false} ChainInRange(image: seq<Byte>, at: nat, chain: seq<nat>)
    requires Chain(image, at, chain)
    ensures forall i :: 0 <= i < |chain| ==> chain[i] + 16 <= |image|
    decreases |chain|
  {
    if |chain| > 1 {
      ChainInRange(image, Next(image, at), chain[1..]);
    }
  }

  /** `romfs_namei`: the first header is never compared, and the last comparison
      is with the volume's. */
  method Namei(image: seq<Byte>, name: seq<Byte>, ghost chain: seq<nat>) returns (r: Option<INode>)
    requires |image| >= 16 && Chain(image, FirstHeader(image), chain)
    ensures forall i :: 0 <= i < |chain| ==> chain[i] + 16 <= |image|
    ensures r == Lookup(image, name, chain[1..])
  {
    var offset := FirstHeader(image);
    ghost var left := chain;
    ChainInRange(image, offset, chain);
    while true
      invariant Chain(image, offset, left)
      invariant forall i :: 0 <= i < |left| ==> left[i] + 16 <= |image|
      invariant Lookup(image, name, left[1..]) == Lookup(image, name, chain[1..])
      decreases |left|
    {
      offset := Next(image, offset);
      left := left[1..];
      if CStr(image, offset + 16) == name {
        return Some(INode(offset, Word(image, offset + 8)));
      }
      if offset == 0 {
        break;
      }
    }
    return None;
  }

  /** `romfs_get_daddr`, with its fixed name length. */
  function GetDaddr(inode: INode): nat {
    (if inode.dsize != 0 then Up16(inode.daddr + 2) else 0) + 16
  }

  // ---- What is in an image

  lemma {:induction false} CStrHeld(image: seq<Byte>, at: nat, name: seq<Byte>, zeros: nat)
    requires Holds(image, at, name + Zeros(zeros)) && zeros > 0
    requires forall i :: 0 <= i < |name| ==> name[i] != 0
    ensures CStr(image, at) == name
    decreases |name|
  {
    if name == [] {
      assert (name + Zeros(zeros))[0] == 0;
    } else {
      assert (name + Zeros(zeros))[1..] == name[1..] + Zeros(zeros);
      CStrHeld(image, at + 1, name[1..], zeros);
    }
  }

  /** A header as it stands in the image reads back field by field. */
  lemma HeaderReads(image: seq<Byte>, at: nat, next: nat, spec: nat, size: nat, name: seq<Byte>,
                    b: seq<Byte>)
    requires Holds(image, at, b) && |b| >= 16
    requires b[..12] == Big(next) + Big(spec) + Big(size) && b[16..] == PaddedName(name)
    requires forall i :: 0 <= i < |name| ==> name[i] != 0
    ensures at + 16 <= |image|
    ensures Word(image, at) == next % WORD && Word(image, at + 4) == spec % WORD && Word(image, at + 8) == size % WORD
    ensures CStr(image, at + 16) == name
  {
    assert b == b[..12] + b[12..16] + b[16..];
    HoldsParts(image, at, b[..12] + b[12..16], b[16..]);
    HoldsParts(image, at, b[..12], b[12..16]);
    HeaderWords(next, spec, size, image, at);
    HoldsSlice(image, at, b);
    CStrHeld(image, at + 16, name, Up16(|name| + 1) - |name|);
  }

  lemma {:induction false} HoldsElsewhere(s: seq<Byte>, t: seq<Byte>, at: nat, b: seq<Byte>)
    requires Holds(s, at, b) && at >= 16 && |t| == |s|
    requires forall i :: 16 <= i < |s| ==> t[i] == s[i]
    ensures Holds(t, at, b)
    decreases |b|
  {
    if b != [] {
      HoldsElsewhere(s, t, at + 1, b[1..]);
    }
  }

  /** The offsets of a list of siblings. */
  function Siblings(p: Placed): seq<nat> {
    if p.End? then [] else [p.offset] + Siblings(p.rest)
  }

  /** The fields of a node read back. */
  predicate Legible(image: seq<Byte>, q: Placed, offsets: seq<nat>)
    requires q.At?
  {
    && q.offset + 16 <= |image| && q.offset % 16 == 0 && q.offset >= 16
    && Word(image, q.offset) == OffsetOf(q.rest) + TypeBits(q.file)
    && Word(image, q.offset + 4) == Spec(q, offsets) % WORD
    && Word(image, q.offset + 8) == Size(q.file) % WORD
    && CStr(image, q.offset + 16) == q.file.name
  }

  predicate ReadsBack(image: seq<Byte>, p: Placed, offsets: seq<nat>) {
    p.At? ==> Legible(image, p, offsets) && ReadsBack(image, p.kids, offsets) && ReadsBack(image, p.rest, offsets)
  }

  /** Every node lies between `lo` and `hi`. */
  predicate Between(p: Placed, lo: nat, hi: nat) {
    p.At? ==>
      && lo <= p.offset && p.offset + 16 <= hi
      && Between(p.kids, p.offset + 1, hi) && Between(p.rest, p.offset + 1, hi)
  }

  lemma {:induction false} Widen(p: Placed, lo: nat, hi: nat, lo': nat, hi': nat)
    requires Between(p, lo, hi) && lo' <= lo && hi <= hi'
    ensures Between(p, lo', hi')
    decreases p
  {
    if p.At? {
      Widen(p.kids, p.offset + 1, hi, p.offset + 1, hi');
      Widen(p.rest, p.offset + 1, hi, p.offset + 1, hi');
    }
  }

  lemma {:induction false} ConsecutiveBetween(p: Placed, cur: nat)
    requires Consecutive(p, cur)
    ensures Between(p, cur, cur + Bulk(p))
    decreases p
  {
    if p.At? {
      var below := p.offset + Space(p.file);
      ConsecutiveBetween(p.kids, below);
      ConsecutiveBetween(p.rest, below + Bulk(p.kids));
      Widen(p.kids, below, below + Bulk(p.kids), p.offset + 1, cur + Bulk(p));
      Widen(p.rest, below + Bulk(p.kids), below + Bulk(p.kids) + Bulk(p.rest), p.offset + 1, cur + Bulk(p));
    }
  }

  /** Names are C strings all over the list. */
  predicate NamesOk(p: Placed) {
    p.At? ==> (forall i :: 0 <= i < |p.file.name| ==> p.file.name[i] != 0) && NamesOk(p.kids) && NamesOk(p.rest)
  }

  lemma {:induction false} PlacedNamesOk(f: Forest, cur: nat)
    requires Wf(f)
    ensures NamesOk(Place(f, cur))
  {
    if f.Cons? {
      var below := cur + Pad(f.file, cur) + Space(f.file);
      PlacedNamesOk(f.kids, below);
      PlacedNamesOk(f.rest, EndOf(f.kids, below));
    }
  }

  lemma NodeReads(image: seq<Byte>, q: Placed, offsets: seq<nat>)
    requires q.At? && Holds(image, q.offset, NodeBytes(q, offsets))
    requires forall i :: 0 <= i < |q.file.name| ==> q.file.name[i] != 0
    requires q.offset % 16 == 0 && q.offset >= 16 && OffsetOf(q.rest) + 16 <= WORD
    ensures Legible(image, q, offsets)
  {
    NodeParts(image, q, offsets);
    HeaderLegible(image, q, offsets, Header(q, offsets));
  }

  lemma HeaderLegible(image: seq<Byte>, q: Placed, offsets: seq<nat>, b: seq<Byte>)
    requires q.At? && Holds(image, q.offset, b) && |b| >= 16
    requires b[..12] == Big(OffsetOf(q.rest) + TypeBits(q.file)) + Big(Spec(q, offsets)) + Big(Size(q.file))
    requires b[16..] == PaddedName(q.file.name) && forall i :: 0 <= i < |q.file.name| ==> q.file.name[i] != 0
    requires q.offset % 16 == 0 && q.offset >= 16 && OffsetOf(q.rest) + 16 <= WORD
    ensures Legible(image, q, offsets)
  {
    var next, spec, size := OffsetOf(q.rest) + TypeBits(q.file), Spec(q, offsets), Size(q.file);
    HeaderReads(image, q.offset, next, spec, size, q.file.name, b);
    assert next % WORD == next;
  }

  lemma {:induction false} AllReadBack(image: seq<Byte>, p: Placed, offsets: seq<nat>, w: Writer)
    requires w == NodeWriter(offsets) && AllAt(image, p, w) && OnBoundaries(p) && NamesOk(p)
    requires Between(p, 16, WORD)
    ensures ReadsBack(image, p, offsets)
    decreases p
  {
    if p.At? {
      WriterWrites(offsets, p);
      NodeReads(image, p, offsets);
      Widen(p.kids, p.offset + 1, WORD, 16, WORD);
      Widen(p.rest, p.offset + 1, WORD, 16, WORD);
      AllReadBack(image, p.kids, offsets, w);
      AllReadBack(image, p.rest, offsets, w);
    }
  }

  // ---- Where the reader starts

  /** The reader counts the volume name in eight bits and leaves out the NUL behind
      it when it steps over the name. */
  lemma StepOverName(n: nat, pad: nat)
    ensures Up16(n % 256 + 16) == 16 + Up16(n + 1) + pad <==> n < 256 && n % 16 != 0 && pad == 0
    ensures n < 256 && n % 16 != 0 ==> Up16(n % 256 + 16) == 16 + Up16(n + 1)
    ensures n < 256 && n % 16 == 0 ==> Up16(n % 256 + 16) == 16 + n && Up16(n + 1) == n + 16
    ensures n >= 256 ==> Up16(n % 256 + 16) < 16 + n
  {
  }
}
