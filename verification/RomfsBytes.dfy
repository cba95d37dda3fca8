/** Bytes, big-endian words, padding and the checksum of a ROM file system image. */
module RomfsBytes {

  type Byte = x: int | 0 <= x < 256

  const WORD: nat := 0x1_0000_0000

  /** The `n` low bytes of `w`, the most significant first. */
  function Bytes(w: nat, n: nat): (b: seq<Byte>)
    ensures |b| == n
    decreases w, n
  {
    if n == 0 then [] else Bytes(w / 256, n - 1) + [w % 256]
  }

  /** The four bytes `htonl` stores for the low 32 bits of `x`. */
  function Big(x: int): (b: seq<Byte>)
    ensures |b| == 4
  {
    Bytes(x % WORD, 4)
  }

  /** The number whose big-endian bytes are `b`. */
  function Value(b: seq<Byte>): nat {
    if b == [] then 0 else Value(b[..|b| - 1]) * 256 + b[|b| - 1]
  }

  /** The word `ntohl` reads at `at`. */
  function Word(b: seq<Byte>, at: nat): nat
    requires at + 4 <= |b|
  {
    Value(b[at..at + 4])
  }

  function Power256(n: nat): nat {
    if n == 0 then 1 else 256 * Power256(n - 1)
  }

  lemma {:induction false} ValueOfBytes(w: nat, n: nat)
    requires w < Power256(n)
    ensures Value(Bytes(w, n)) == w
    decreases n
  {
    if n > 0 {
      var b := Bytes(w, n);
      assert b[..n - 1] == Bytes(w / 256, n - 1);
      ValueOfBytes(w / 256, n - 1);
    }
  }

  /** `image` holds `b` at `at`, byte for byte. */
  predicate Holds(image: seq<Byte>, at: nat, b: seq<Byte>)
    decreases |b|
  {
    if b == [] then at <= |image| else at < |image| && image[at] == b[0] && Holds(image, at + 1, b[1..])
  }

  lemma {:induction false} HoldsSlice(image: seq<Byte>, at: nat, b: seq<Byte>)
    ensures Holds(image, at, b) <==> at + |b| <= |image| && image[at..at + |b|] == b
    decreases |b|
  {
    if b != [] {
      HoldsSlice(image, at + 1, b[1..]);
      if at + |b| <= |image| {
        assert image[at..at + |b|] == [image[at]] + image[at + 1..at + 1 + |b[1..]|];
        assert b == [b[0]] + b[1..];
      }
    }
  }

  lemma {:induction false} HoldsParts(image: seq<Byte>, at: nat, a: seq<Byte>, b: seq<Byte>)
    requires Holds(image, at, a + b)
    ensures Holds(image, at, a) && Holds(image, at + |a|, b)
    decreases |a|
  {
    if a == [] {
      assert a + b == b;
      HoldsSlice(image, at, b);
    } else {
      assert (a + b)[1..] == a[1..] + b;
      HoldsParts(image, at + 1, a[1..], b);
    }
  }

  lemma WordOfBig(b: seq<Byte>, at: nat, x: int)
    requires Holds(b, at, Big(x))
    ensures at + 4 <= |b| && Word(b, at) == x % WORD
  {
    HoldsSlice(b, at, Big(x));
    assert Power256(4) == WORD;
    ValueOfBytes(x % WORD, 4);
  }

  function Zeros(n: nat): (z: seq<Byte>)
    ensures |z| == n && (forall i :: 0 <= i < n ==> z[i] == 0)
  {
    seq(n, _ => 0)
  }

  /** The next multiple of 16: `ALIGNUP16`, and `get_next_16_boundary`. */
  function Up16(x: nat): (r: nat)
    ensures x <= r < x + 16 && r % 16 == 0
  {
    (x + 15) - (x + 15) % 16
  }

  lemma Quarter(r: int)
    requires r % 16 == 0
    ensures r % 4 == 0
  {
  }

  lemma Plus16(x: int, y: int)
    requires x % 16 == 0 && y % 16 == 0
    ensures (x + y) % 16 == 0 && (x - y) % 16 == 0
  {
  }

  lemma WordOfFour(b: seq<Byte>, at: nat)
    requires at + 4 <= |b|
    ensures Word(b, at) == ((b[at] as int * 256 + b[at + 1]) * 256 + b[at + 2]) * 256 + b[at + 3]
  {
    var w := b[at..at + 4];
    assert Value(w) == Value(w[..3]) * 256 + w[3] && w[..3][..2] == w[..2] && w[..2][..1] == w[..1];
    assert Value(w[..3]) == Value(w[..2]) * 256 + w[2] && Value(w[..2]) == Value(w[..1]) * 256 + w[1];
    assert w[..1][..0] == [] && Value(w[..1]) == w[0];
  }

  // ---- The checksum

  /** `romfs_checksum`: the words of `b` added up in 32 bits. */
  function Sum(b: seq<Byte>): (s: nat)
    ensures s < WORD
    decreases |b|
  {
    if |b| < 4 then 0 else (Word(b, 0) + Sum(b[4..])) % WORD
  }

  lemma SumOfWord(b: seq<Byte>, w: nat)
    requires |b| == 4 && w == ((b[0] as int * 256 + b[1]) * 256 + b[2]) * 256 + b[3]
    ensures Word(b, 0) == w && Sum(b) == w % WORD
  {
    WordOfFour(b, 0);
  }

  /** Two words and their sum, the first byte of each the most significant. */
  lemma KnownSum()
    ensures Sum([0x01, 0x02, 0x03, 0x04]) == 0x0102_0304
    ensures Sum([0xff, 0xff, 0xff, 0xff, 0x00, 0x00, 0x00, 0x03]) == 2
  {
    var high: seq<Byte>, low: seq<Byte> := [0xff, 0xff, 0xff, 0xff], [0x00, 0x00, 0x00, 0x03];
    SumOfWord([0x01, 0x02, 0x03, 0x04], 0x0102_0304);
    SumOfWord(high, 0xffff_ffff);
    SumOfWord(low, 3);
    SumOfParts(high, low);
    assert high + low == [0xff, 0xff, 0xff, 0xff, 0x00, 0x00, 0x00, 0x03];
  }

  lemma AddMod(x: int, y: int)
    ensures (x + y % WORD) % WORD == (x + y) % WORD
  {
    assert y == y / WORD * WORD + y % WORD;
  }

  lemma {:induction false} SumOfParts(a: seq<Byte>, b: seq<Byte>)
    requires |a| % 4 == 0
    ensures Sum(a + b) == (Sum(a) + Sum(b)) % WORD
  {
    if a == [] {
      assert a + b == b;
    } else {
      assert (a + b)[4..] == a[4..] + b && (a + b)[0..4] == a[0..4];
      SumOfParts(a[4..], b);
      AddMod(Word(a, 0), Sum(a[4..]) + Sum(b));
      AddMod(Sum(b), Word(a, 0) + Sum(a[4..]));
    }
  }

  lemma SumFront(sum: nat, b: seq<Byte>)
    requires |b| >= 4
    ensures (sum + Sum(b)) % WORD == ((sum + Word(b, 0)) % WORD + Sum(b[4..])) % WORD
  {
    var w, rest := Word(b, 0), Sum(b[4..]);
    AddMod(sum, w + rest);
    AddMod(rest, sum + w);
    assert rest + (sum + w) == sum + (w + rest);
  }

  /** The loop of `romfs_checksum` over `size >> 2` words. */
  method Checksum(b: seq<Byte>, size: nat) returns (sum: nat)
    requires size <= |b|
    ensures sum == Sum(b[..size / 4 * 4])
  {
    sum := 0;
    var left := size / 4;
    var at := 0;
    ghost var data := b[..size / 4 * 4];
    assert data[0..] == data;
    while left > 0
      invariant 0 <= left && at + 4 * left == |data|
      invariant 0 <= sum < WORD
      invariant (sum + Sum(data[at..])) % WORD == Sum(data)
    {
      SumFront(sum, data[at..]);
      assert data[at..][4..] == data[at + 4..] && data[at..][0..4] == b[at..at + 4];
      sum := (sum + Word(b, at)) % WORD;
      at := at + 4;
      left := left - 1;
    }
  }

  /** `b` with the checksum field of the header it starts with replaced. */
  function WithSum(b: seq<Byte>, x: int): (r: seq<Byte>)
    requires |b| >= 16
    ensures |r| == |b|
    ensures forall i :: 0 <= i < |b| && !(12 <= i < 16) ==> r[i] == b[i]
  {
    b[..12] + Big(x) + b[16..]
  }

  /** `fixsum`: the checksum that makes the first `size` bytes add up to zero. */
  function FixSum(b: seq<Byte>, size: nat): (r: seq<Byte>)
    requires |b| >= 16 && size <= |b|
    ensures |r| == |b|
    ensures forall i :: 0 <= i < |b| && !(12 <= i < 16) ==> r[i] == b[i]
  {
    var zeroed := WithSum(b, 0);
    WithSum(zeroed, -(Sum(zeroed[..size / 4 * 4]) as int))
  }

  lemma AddMod3(a: int, x: int, c: int)
    ensures (a + (x % WORD + c) % WORD) % WORD == (a + x + c) % WORD
  {
    AddMod(a, x % WORD + c);
    AddMod(a + c, x);
    assert a + (x % WORD + c) == (a + c) + x % WORD;
  }

  lemma SumOfBig(x: int)
    ensures Sum(Big(x)) == x % WORD
  {
    HoldsSlice(Big(x), 0, Big(x));
    assert Big(x)[0..4] == Big(x);
    WordOfBig(Big(x), 0, x);
    assert Big(x)[4..] == [];
  }

  lemma SumSplit(b: seq<Byte>, x: int, size: nat)
    requires 16 <= size <= |b| && size % 4 == 0
    ensures Sum(WithSum(b, x)[..size]) == (Sum(b[..12]) + x + Sum(b[16..size])) % WORD
  {
    var r := WithSum(b, x)[..size];
    assert r == b[..12] + (Big(x) + b[16..size]);
    SumOfParts(b[..12], Big(x) + b[16..size]);
    SumOfParts(Big(x), b[16..size]);
    SumOfBig(x);
    AddMod3(Sum(b[..12]), x, Sum(b[16..size]));
  }

  lemma Cancel(a: int, c: int)
    ensures (a + -((a + c) % WORD) + c) % WORD == 0
  {
    var q := (a + c) / WORD;
    assert a + c == q * WORD + (a + c) % WORD;
  }

  /** After `fixsum` the covered bytes add up to zero. */
  lemma FixedSumIsZero(b: seq<Byte>, size: nat)
    requires 16 <= size <= |b| && size % 4 == 0
    ensures Sum(FixSum(b, size)[..size]) == 0
  {
    assert size / 4 * 4 == size;
    var zeroed := WithSum(b, 0);
    var a, c := Sum(b[..12]) as int, Sum(b[16..size]) as int;
    SumSplit(b, 0, size);
    assert Sum(zeroed[..size]) == (a + c) % WORD;
    assert zeroed[..12] == b[..12] && zeroed[16..size] == b[16..size];
    SumSplit(zeroed, -((a + c) % WORD), size);
    Cancel(a, c);
  }

  lemma FixedWholeIsZero(b: seq<Byte>)
    requires |b| >= 16 && |b| % 4 == 0
    ensures Sum(FixSum(b, |b|)) == 0
  {
    FixedSumIsZero(b, |b|);
    assert FixSum(b, |b|)[..|b|] == FixSum(b, |b|);
  }

  /** A header with its checksum: `fixsum` over all of it. */
  function Summed(b: seq<Byte>): (r: seq<Byte>)
    requires |b| >= 16 && |b| % 16 == 0
    ensures |r| == |b| && Sum(r) == 0 && r[..12] == b[..12] && r[16..] == b[16..]
  {
    Quarter(|b|);
    FixedWholeIsZero(b);
    FixSum(b, |b|)
  }
}
