/** The FAT12 chain loader of the kernel loader: 12-bit entries read through a
    window of two sectors, and a chain of clusters copied to memory. */
module Fat12 {

  type Byte = x: int | 0 <= x < 256

  const SECTOR: nat := 512
  const END_OF_CHAIN: nat := 0xfff

  /** The specification ends a chain with this or any greater entry. */
  const FIRST_END_MARK: nat := 0xff8

  /** The first copy of the table starts behind the boot sector and takes nine sectors. */
  const FAT_START: nat := 1
  const FAT_SECTORS: nat := 9
  const ENTRIES: nat := 3072

  type Disk = seq<seq<Byte>>

  const PER_TRACK: nat := 18
  const TRACKS: nat := 0x100

  /** A disk of whole sectors that holds the table, with track numbers that fit in a byte. */
  predicate DiskOk(disk: Disk) {
    FAT_START + FAT_SECTORS < |disk| <= TRACKS * 2 * PER_TRACK && forall i :: 0 <= i < |disk| ==> |disk[i]| == SECTOR
  }

  // ---- The table

  /** Byte `i` of the table. */
  function FatByte(disk: Disk, i: nat): Byte
    requires DiskOk(disk) && i < FAT_SECTORS * SECTOR
  {
    disk[FAT_START + i / SECTOR][i % SECTOR]
  }

  /** The high 12 bits of the word `lo`, `hi` for an odd entry, the low 12 for an even one. */
  function Half(n: nat, lo: nat, hi: nat): nat {
    if n % 2 == 1 then (lo + hi * 0x100) / 0x10 else (lo + hi * 0x100) % 0x1000
  }

  /** Entry `n` as section "FAT Data Structure" of the FAT specification defines it:
      half of the little-endian word at one and a half times `n`. */
  function Entry(disk: Disk, n: nat): nat
    requires DiskOk(disk) && n < ENTRIES
  {
    Half(n, FatByte(disk, n + n / 2), FatByte(disk, n + n / 2 + 1))
  }

  /** Entries packed two to three bytes. */
  function Pack(entries: seq<nat>): (b: seq<Byte>)
    requires forall i :: 0 <= i < |entries| ==> entries[i] < 0x1000
    ensures |b| == (|entries| * 3 + 1) / 2
  {
    if entries == [] then []
    else if |entries| == 1 then [entries[0] % 0x100, entries[0] / 0x100]
    else
      [entries[0] % 0x100, entries[0] / 0x100 + entries[1] % 0x10 * 0x10, entries[1] / 0x10] + Pack(entries[2..])
  }

  lemma HalfOfPair(e0: nat, e1: nat)
    requires e0 < 0x1000 && e1 < 0x1000
    ensures Half(0, e0 % 0x100, e0 / 0x100 + e1 % 0x10 * 0x10) == e0
    ensures Half(0, e0 % 0x100, e0 / 0x100) == e0
    ensures Half(1, e0 / 0x100 + e1 % 0x10 * 0x10, e1 / 0x10) == e1
  {
  }

  lemma SameHalf(n: nat, lo: nat, hi: nat)
    requires n >= 2
    ensures Half(n, lo, hi) == Half(n - 2, lo, hi) && n + n / 2 == (n - 2) + (n - 2) / 2 + 3
  {
    assert n % 2 == (n - 2) % 2;
  }

  lemma PackBehindPair(entries: seq<nat>, i: nat)
    requires (forall i :: 0 <= i < |entries| ==> entries[i] < 0x1000) && |entries| >= 2
    requires i < |Pack(entries[2..])|
    ensures i + 3 < |Pack(entries)| && Pack(entries)[i + 3] == Pack(entries[2..])[i]
  {
    var head := [entries[0] % 0x100, entries[0] / 0x100 + entries[1] % 0x10 * 0x10, entries[1] / 0x10];
    assert Pack(entries) == head + Pack(entries[2..]) && |head| == 3;
  }

  lemma {:induction false} PackedBytes(entries: seq<nat>, n: nat)
    requires (forall i :: 0 <= i < |entries| ==> entries[i] < 0x1000) && n < |entries|
    ensures n + n / 2 + 1 < |Pack(entries)|
    ensures Half(n, Pack(entries)[n + n / 2], Pack(entries)[n + n / 2 + 1]) == entries[n]
    decreases n
  {
    if n >= 2 {
      PackedBytes(entries[2..], n - 2);
      var at := (n - 2) + (n - 2) / 2;
      PackBehindPair(entries, at);
      PackBehindPair(entries, at + 1);
      SameHalf(n, Pack(entries)[at + 3], Pack(entries)[at + 4]);
    } else {
      HalfOfPair(entries[0], if |entries| > 1 then entries[1] else 0);
    }
  }

  /** A packed table on the disk yields its entries. */
  lemma EntryOfPacked(disk: Disk, entries: seq<nat>, n: nat)
    requires DiskOk(disk) && |entries| <= ENTRIES && n < |entries|
    requires forall i :: 0 <= i < |entries| ==> entries[i] < 0x1000
    requires forall i :: 0 <= i < |Pack(entries)| ==> FatByte(disk, i) == Pack(entries)[i]
    ensures Entry(disk, n) == entries[n]
  {
    PackedBytes(entries, n);
  }

  /** Six bytes of a table and the four entries they hold: 0xff0, 0xfff, 0x003 and 0xff8. */
  lemma KnownEntries(disk: Disk)
    requires DiskOk(disk) && disk[1][..6] == [0xf0, 0xff, 0xff, 0x03, 0x80, 0xff]
    ensures Entry(disk, 0) == 0xff0 && Entry(disk, 1) == 0xfff && Entry(disk, 2) == 0x003 && Entry(disk, 3) == 0xff8
  {
    var head := disk[1][..6];
    assert forall i: nat :: i < 6 ==> FatByte(disk, i) == head[i];
  }

  // ---- Sectors and their addresses on the floppy

  /** The sector the BIOS reads at a cylinder, head and sector number. */
  function Linear(track: nat, head: nat, sector: nat): nat
    requires sector >= 1
  {
    (track * 2 + head) * PER_TRACK + sector - 1
  }

  /** The address `load_file_to_ram` computes for a sector leads back to it. */
  lemma AddressDecodes(r: nat)
    ensures Linear(r / PER_TRACK / 2, r / PER_TRACK % 2, r % PER_TRACK + 1) == r
    ensures Linear(0, 0, 18) == 17 && Linear(0, 1, 1) == 18 && Linear(1, 0, 1) == 36
  {
    var t := r / PER_TRACK;
    assert t == t / 2 * 2 + t % 2;
    assert r == t * PER_TRACK + r % PER_TRACK;
  }

  // ---- The loader

  function Concat(disk: Disk, sectors: seq<nat>): (b: seq<Byte>)
    requires DiskOk(disk) && (forall i :: 0 <= i < |sectors| ==> sectors[i] < |disk|)
    ensures |b| == |sectors| * SECTOR
  {
    if sectors == [] then [] else Concat(disk, sectors[..|sectors| - 1]) + disk[sectors[|sectors| - 1]]
  }

  /** The entries of the table. */
  function Table(disk: Disk): (table: seq<nat>)
    requires DiskOk(disk)
    ensures |table| == ENTRIES
  {
    seq(ENTRIES, n requires 0 <= n < ENTRIES => Entry(disk, n))
  }

  /** The entry of cluster `i` of the chain names the next one. */
  ghost predicate Follows(table: seq<nat>, chain: seq<nat>, i: nat)
    requires |table| == ENTRIES && i + 1 < |chain|
  {
    chain[i] < ENTRIES && table[chain[i]] == chain[i + 1]
  }

  /** The clusters of a file: each entry of the table names the next one, and the
      last one holds one of the end marks of the FAT specification. */
  ghost predicate SpecChain(table: seq<nat>, chain: seq<nat>)
    requires |table| == ENTRIES
  {
    && |chain| > 0 && (forall i :: 0 <= i < |chain| ==> 2 <= chain[i] < ENTRIES)
    && (forall i: nat {:trigger Follows(table, chain, i)} :: i + 1 < |chain| ==> Follows(table, chain, i))
    && table[chain[|chain| - 1]] >= FIRST_END_MARK
  }

  /** The same, with any entry that names no cluster of the table: where the loop
      stops, or where it leaves the table. */
  ghost predicate Walk(table: seq<nat>, chain: seq<nat>)
    requires |table| == ENTRIES
  {
    && |chain| > 0 && (forall i :: 0 <= i < |chain| ==> 2 <= chain[i] < ENTRIES)
    && (forall i: nat {:trigger Follows(table, chain, i)} :: i + 1 < |chain| ==> Follows(table, chain, i))
    && table[chain[|chain| - 1]] >= ENTRIES
  }

  /** The clusters visited in the first `k` turns of the loop, up to one that has no entry. */
  function Visits(table: seq<nat>, begin: nat, k: nat): (v: seq<nat>)
    requires |table| == ENTRIES
    ensures |v| > 0
  {
    if k == 0 then [begin] else
      var v := Visits(table, begin, k - 1);
      var last := v[|v| - 1];
      if last >= ENTRIES || table[last] == END_OF_CHAIN then v else v + [table[last]]
  }

  lemma {:induction false} VisitsFollow(table: seq<nat>, chain: seq<nat>, k: nat)
    requires |table| == ENTRIES && Walk(table, chain) && k < |chain|
    ensures Visits(table, chain[0], k) == chain[..k + 1]
  {
    if k > 0 {
      VisitsFollow(table, chain, k - 1);
      EndsNotBefore(table, chain, k - 1);
      assert chain[..k][k - 1] == chain[k - 1] < ENTRIES && chain[..k + 1] == chain[..k] + [chain[k]];
    }
  }

  lemma EndsNotBefore(table: seq<nat>, chain: seq<nat>, i: nat)
    requires |table| == ENTRIES && Walk(table, chain) && i + 1 < |chain|
    ensures table[chain[i]] == chain[i + 1] < ENTRIES
  {
    assert Follows(table, chain, i);
  }

  /** The loop visits the clusters of a walk, and behind them the one outside the
      table that the last entry names, unless that entry is 0xfff. */
  lemma {:induction false} WalkIsVisited(table: seq<nat>, chain: seq<nat>, k: nat)
    requires |table| == ENTRIES && Walk(table, chain) && k >= |chain|
    ensures var mark := table[chain[|chain| - 1]];
            Visits(table, chain[0], k) == if mark == END_OF_CHAIN then chain else chain + [mark]
  {
    var mark := table[chain[|chain| - 1]];
    assert (chain + [mark])[|chain|] == mark;
    if k == |chain| {
      VisitsFollow(table, chain, k - 1);
      assert chain[..k] == chain;
      VisitsNext(table, chain[0], k, chain);
    } else {
      WalkIsVisited(table, chain, k - 1);
      VisitsNext(table, chain[0], k, if mark == END_OF_CHAIN then chain else chain + [mark]);
    }
  }

  lemma VisitsNext(table: seq<nat>, begin: nat, k: nat, v: seq<nat>)
    requires |table| == ENTRIES && k > 0 && v == Visits(table, begin, k - 1)
    ensures Visits(table, begin, k)
         == if v[|v| - 1] >= ENTRIES || table[v[|v| - 1]] == END_OF_CHAIN then v else v + [table[v[|v| - 1]]]
  {
  }

  lemma {:induction false} VisitsAreLinked(table: seq<nat>, begin: nat, k: nat, i: nat)
    requires |table| == ENTRIES && i + 1 < |Visits(table, begin, k)|
    ensures var v := Visits(table, begin, k);
            v[i] < ENTRIES && table[v[i]] == v[i + 1] != END_OF_CHAIN
  {
    if k > 0 && i + 1 < |Visits(table, begin, k - 1)| {
      VisitsAreLinked(table, begin, k - 1, i);
    }
  }

  /** Whenever the loop has come to an end mark or out of the table, what it has
      loaded is a walk, unless it has met one of the entries 0 and 1. */
  lemma VisitsAreWalk(table: seq<nat>, begin: nat, k: nat)
    requires |table| == ENTRIES && begin < ENTRIES
    requires var v := Visits(table, begin, k);
             && (forall i :: 0 <= i < |v| ==> v[i] >= 2)
             && (v[|v| - 1] >= ENTRIES || table[v[|v| - 1]] == END_OF_CHAIN)
    ensures var v := Visits(table, begin, k);
            Walk(table, if v[|v| - 1] >= ENTRIES then v[..|v| - 1] else v)
  {
    var v := Visits(table, begin, k);
    var chain := if v[|v| - 1] >= ENTRIES then v[..|v| - 1] else v;
    forall i: nat | i + 1 < |v| ensures v[i] < ENTRIES && table[v[i]] == v[i + 1] {
      VisitsAreLinked(table, begin, k, i);
    }
    VisitsBegin(table, begin, k);
    forall i: nat | i + 1 < |chain| ensures Follows(table, chain, i) {
      assert chain[i] == v[i] && chain[i + 1] == v[i + 1];
    }
    if |chain| < |v| {
      assert v[|chain| - 1] == chain[|chain| - 1] && table[v[|chain| - 1]] == v[|chain|];
    }
  }

  lemma {:induction false} VisitsBegin(table: seq<nat>, begin: nat, k: nat)
    requires |table| == ENTRIES
    ensures Visits(table, begin, k)[0] == begin
  {
    if k > 0 {
      VisitsBegin(table, begin, k - 1);
    }
  }

  /** On a chain ended as the specification allows, the loader loads the chain and
      stops exactly when the mark is 0xfff; any other mark it takes for one more
      cluster, which lies outside the table. */
  lemma StopsAtTheEnd(table: seq<nat>, chain: seq<nat>, k: nat)
    requires |table| == ENTRIES && SpecChain(table, chain) && k >= |chain|
    ensures Walk(table, chain)
    ensures Visits(table, chain[0], k) == chain <==> table[chain[|chain| - 1]] == 0xfff
    ensures table[chain[|chain| - 1]] != 0xfff ==>
              Visits(table, chain[0], k) == chain + [table[chain[|chain| - 1]]]
              && table[chain[|chain| - 1]] >= ENTRIES
  {
    WalkIsVisited(table, chain, k);
  }

  /** A walk never comes back to a cluster. */
  lemma {:induction false} ChainIsAcyclic(table: seq<nat>, chain: seq<nat>, i: nat, j: nat)
    requires |table| == ENTRIES && Walk(table, chain) && i < j < |chain|
    ensures chain[i] != chain[j]
    decreases |chain| - j
  {
    EndsNotBefore(table, chain, i);
    if j + 1 < |chain| {
      EndsNotBefore(table, chain, j);
      ChainIsAcyclic(table, chain, i + 1, j + 1);
    }
  }

  /** Memory after `data` was written at `at`. */
  function Spliced(memory: seq<Byte>, at: nat, data: seq<Byte>): (m: seq<Byte>)
    requires at + |data| <= |memory|
    ensures |m| == |memory|
  {
    memory[..at] + data + memory[at + |data|..]
  }

  /** The sectors of a chain of clusters: cluster 2 is the first one behind the root directory. */
  function SectorsOf(chain: seq<nat>, rootSectors: nat, rootStart: nat): (s: seq<nat>)
    requires forall i :: 0 <= i < |chain| ==> chain[i] >= 2
    ensures |s| == |chain| && (forall i :: 0 <= i < |chain| ==> s[i] == chain[i] - 2 + rootSectors + rootStart)
  {
    seq(|chain|, i requires 0 <= i < |chain| => chain[i] - 2 + rootSectors + rootStart)
  }

  /** From `at` on memory holds, 512 bytes each, the sectors of the clusters of
      `chain`: cluster 2 is the first sector behind the root directory. */
  predicate InMemory(disk: Disk, chain: seq<nat>, rootSectors: nat, rootStart: nat, now: seq<Byte>, at: nat) {
    && at + |chain| * 512 <= |now|
    && forall i: nat {:trigger chain[i]} :: i < |chain| ==>
         && 2 <= chain[i] && chain[i] - 2 + rootSectors + rootStart < |disk|
         && now[at + i * 512..at + i * 512 + 512] == disk[chain[i] - 2 + rootSectors + rootStart]
  }

  predicate SameOutside(before: seq<Byte>, now: seq<Byte>, at: nat, size: nat) {
    |now| == |before| && forall j: nat :: j < |now| && !(at <= j < at + size) ==> now[j] == before[j]
  }

  class Loader {
    const disk: Disk
    const fatBuffer: array<Byte>
    const readData: array<Byte>
    const ram: array<Byte>
    var kernelAddr: nat

    ghost predicate Valid()
      reads this
    {
      && DiskOk(disk) && fatBuffer.Length == 2048 && readData.Length == SECTOR
      && fatBuffer != readData && ram != fatBuffer && ram != readData
      && kernelAddr <= ram.Length
    }

    /** `read_sector`: the BIOS copies `blocks` sectors into a buffer. */
    method ReadSector(buffer: array<Byte>, sector: nat, track: nat, head: nat, blocks: nat)
      requires DiskOk(disk) && sector >= 1 && Linear(track, head, sector) + blocks <= |disk|
      requires track < TRACKS && head < 2 && sector <= PER_TRACK && blocks * SECTOR <= buffer.Length
      modifies buffer
      ensures forall i :: 0 <= i < blocks * SECTOR ==>
                buffer[i] == disk[Linear(track, head, sector) + i / SECTOR][i % SECTOR]
    {
      var first := Linear(track, head, sector);
      var i := 0;
      while i < blocks * SECTOR
        invariant 0 <= i <= blocks * SECTOR
        invariant forall j :: 0 <= j < i ==> buffer[j] == disk[first + j / SECTOR][j % SECTOR]
      {
        buffer[i] := disk[first + i / SECTOR][i % SECTOR];
        i := i + 1;
      }
    }

    /** `read_fat`: two sectors, addressed by a number that counts from one. */
    method ReadFat(number: nat)
      requires Valid() && 2 <= number <= FAT_SECTORS + 1
      modifies fatBuffer
      ensures forall i :: 0 <= i < 2 * SECTOR ==> fatBuffer[i] == disk[number - 1 + i / SECTOR][i % SECTOR]
    {
      ReadSector(fatBuffer, number % PER_TRACK, number / PER_TRACK / 2, number / PER_TRACK % 2, 2);
    }

    /** `get_next_cluster`: the entry, even where it straddles two sectors. */
    method GetNextCluster(cluster: nat) returns (next: nat)
      requires Valid() && cluster < 3072
      modifies fatBuffer
      ensures next == Entry(disk, cluster)
    {
      var offset := if cluster % 2 == 1 then (cluster - 1) / 2 * 3 else cluster / 2 * 3;
      var number := offset / SECTOR + 2;
      var short := offset % SECTOR;
      ReadFat(number);
      UnpacksEntry(disk, cluster, offset);
      if cluster % 2 == 1 {
        WindowByte(fatBuffer[..], disk, offset, 1);
        WindowByte(fatBuffer[..], disk, offset, 2);
        var lo: nat, hi: nat := fatBuffer[short + 1], fatBuffer[short + 2];
        next := lo / 0x10 + hi * 0x10;
      } else {
        WindowByte(fatBuffer[..], disk, offset, 0);
        WindowByte(fatBuffer[..], disk, offset, 1);
        var lo: nat, hi: nat := fatBuffer[short], fatBuffer[short + 1];
        next := hi % 0x10 * 0x100 + lo;
      }
    }

    /** `asm_4g_memcpy` of the sector buffer to where the file is loaded next. */
    method Append()
      requires Valid() && kernelAddr + SECTOR <= ram.Length
      modifies this`kernelAddr, ram
      ensures Valid() && kernelAddr == old(kernelAddr) + SECTOR
      ensures ram[..] == Spliced(old(ram[..]), old(kernelAddr), readData[..])
    {
      var i := 0;
      while i < SECTOR
        invariant 0 <= i <= SECTOR && kernelAddr == old(kernelAddr)
        invariant forall j :: 0 <= j < i ==> ram[kernelAddr + j] == readData[j]
        invariant forall j :: 0 <= j < kernelAddr || kernelAddr + i <= j < ram.Length ==> ram[j] == old(ram[j])
      {
        ram[kernelAddr + i] := readData[i];
        i := i + 1;
      }
      kernelAddr := kernelAddr + SECTOR;
    }

    method LoadSector(r: nat)
      requires Valid() && r < |disk| && kernelAddr + SECTOR <= ram.Length
      modifies this`kernelAddr, ram, readData
      ensures Valid() && kernelAddr == old(kernelAddr) + SECTOR
      ensures ram[..] == Spliced(old(ram[..]), old(kernelAddr), disk[r])
    {
      AddressDecodes(r);
      ReadSector(readData, r % PER_TRACK + 1, r / PER_TRACK / 2, r / PER_TRACK % 2, 1);
      assert readData[..] == disk[r];
      Append();
    }

    /** `load_file_to_ram`: memory gets the sectors of the clusters the loop visits,
        in order, or the first one alone when the table is not asked for; nothing
        else in it changes.  `left` tells that the loop has come to a cluster that
        has no entry; what it does from there on is not followed. */
    method LoadFile(begin: nat, fat: bool, rootSectors: nat, rootStart: nat, ghost chain: seq<nat>) returns (left: bool)
      requires Valid() && if fat then Walk(Table(disk), chain) && chain[0] == begin else chain == [begin] && begin >= 2
      requires forall i :: 0 <= i < |chain| ==> chain[i] - 2 + rootSectors + rootStart < |disk|
      requires kernelAddr + |chain| * SECTOR <= ram.Length
      modifies this`kernelAddr, ram, readData, fatBuffer
      ensures Valid() && kernelAddr == old(kernelAddr) + |chain| * SECTOR
      ensures InMemory(disk, chain, rootSectors, rootStart, ram[..], old(kernelAddr))
      ensures SameOutside(old(ram[..]), ram[..], old(kernelAddr), |chain| * 512)
      ensures left <==> fat && Table(disk)[chain[|chain| - 1]] != 0xfff
      ensures fat && !left ==> Visits(Table(disk), begin, |chain|) == chain
      ensures left ==> Visits(Table(disk), begin, |chain|) == chain + [Table(disk)[chain[|chain| - 1]]]
    {
      left := false;
      assert chain[0] == begin;
      ghost var sectors := SectorsOf(chain, rootSectors, rootStart);
      ghost var before, start := ram[..], kernelAddr;
      LoadSector(begin - 2 + rootSectors + rootStart);
      LoadedFirst(disk, sectors, before, ram[..], start);
      if fat {
        left := LoadChain(begin, rootSectors, rootStart, chain, before, start);
        WalkIsVisited(Table(disk), chain, |chain|);
      }
      LoadedWhole(disk, chain, rootSectors, rootStart, before, ram[..], start);
    }

    /** Its loop, behind the first sector. */
    method LoadChain(begin: nat, rootSectors: nat, rootStart: nat, ghost chain: seq<nat>, ghost before: seq<Byte>,
                     ghost start: nat)
        returns (left: bool)
      requires Valid() && Walk(Table(disk), chain) && chain[0] == begin && kernelAddr == start + SECTOR
      requires forall i :: 0 <= i < |chain| ==> chain[i] - 2 + rootSectors + rootStart < |disk|
      requires start + |chain| * SECTOR <= ram.Length
      requires Loaded(disk, SectorsOf(chain, rootSectors, rootStart), before, ram[..], start, 1)
      modifies this`kernelAddr, ram, readData, fatBuffer
      ensures Valid() && kernelAddr == start + |chain| * SECTOR
      ensures Loaded(disk, SectorsOf(chain, rootSectors, rootStart), before, ram[..], start, |chain|)
      ensures left <==> Table(disk)[chain[|chain| - 1]] != END_OF_CHAIN
    {
      left := false;
      ghost var sectors, k := SectorsOf(chain, rootSectors, rootStart), 1;
      var current := begin;
      var next := GetNextCluster(current);
      while next != END_OF_CHAIN
        invariant Valid() && 1 <= k <= |chain| && kernelAddr == start + k * SECTOR && !left
        invariant Loaded(disk, sectors, before, ram[..], start, k)
        invariant current == chain[k - 1] && next == Entry(disk, current)
        decreases |chain| - k
      {
        if next >= ENTRIES {
          left := true;
          break;
        }
        NotEnd(Table(disk), chain, k);
        LoadNext(next - 2 + rootSectors + rootStart, sectors, before, start, k);
        k := k + 1;
        current := next;
        next := GetNextCluster(current);
      }
      LeavesAtLast(Table(disk), chain, k - 1);
    }

    /** The next sector goes behind those already loaded. */
    method LoadNext(r: nat, ghost sectors: seq<nat>, ghost before: seq<Byte>, ghost start: nat, ghost k: nat)
      requires Valid() && (forall i :: 0 <= i < |sectors| ==> sectors[i] < |disk|)
      requires Loaded(disk, sectors, before, ram[..], start, k) && kernelAddr == start + k * SECTOR
      requires k < |sectors| && r == sectors[k] && kernelAddr + SECTOR <= ram.Length
      modifies this`kernelAddr, ram, readData
      ensures Valid() && kernelAddr == start + (k + 1) * SECTOR
      ensures Loaded(disk, sectors, before, ram[..], start, k + 1)
    {
      ghost var sofar := ram[..];
      LoadSector(r);
      LoadedNext(disk, sectors, before, sofar, ram[..], start, k);
    }
  }

  /** The window read for an entry holds the bytes from `offset` on, as far as
      they are in the table. */
  lemma WindowByte(window: seq<Byte>, disk: Disk, offset: nat, k: nat)
    requires DiskOk(disk) && k < 3 && offset + k < FAT_SECTORS * SECTOR && |window| >= 2 * SECTOR
    requires forall i :: 0 <= i < 2 * SECTOR ==> window[i] == disk[offset / SECTOR + 1 + i / SECTOR][i % SECTOR]
    ensures window[offset % SECTOR + k] == FatByte(disk, offset + k)
  {
    var short := offset % SECTOR;
    assert offset == offset / SECTOR * SECTOR + short;
    assert (offset + k) / SECTOR == offset / SECTOR + (short + k) / SECTOR;
    assert (offset + k) % SECTOR == (short + k) % SECTOR;
    assert window[short + k] == disk[offset / SECTOR + 1 + (short + k) / SECTOR][(short + k) % SECTOR];
  }

  lemma HighHalf(lo: nat, hi: nat)
    requires lo < 0x100 && hi < 0x100
    ensures (lo + hi * 0x100) / 0x10 == lo / 0x10 + hi * 0x10
  {
    var q, r := lo / 0x10, lo % 0x10;
    assert lo + hi * 0x100 == (q + hi * 0x10) * 0x10 + r;
  }

  lemma LowHalf(lo: nat, hi: nat)
    requires lo < 0x100 && hi < 0x100
    ensures (lo + hi * 0x100) % 0x1000 == hi % 0x10 * 0x100 + lo
  {
    var q, r := hi / 0x10, hi % 0x10;
    assert lo + hi * 0x100 == q * 0x1000 + (r * 0x100 + lo);
  }

  /** Taking the entry apart at its own byte boundaries gives what the word gives. */
  lemma UnpacksEntry(disk: Disk, n: nat, offset: nat)
    requires DiskOk(disk) && n < ENTRIES && offset == if n % 2 == 1 then (n - 1) / 2 * 3 else n / 2 * 3
    ensures offset + 1 < FAT_SECTORS * SECTOR && (n % 2 == 1 ==> offset + 2 < FAT_SECTORS * SECTOR)
    ensures n % 2 == 1 ==>
              Entry(disk, n) == FatByte(disk, offset + 1) as nat / 0x10 + FatByte(disk, offset + 2) as nat * 0x10
    ensures n % 2 == 0 ==>
              Entry(disk, n) == FatByte(disk, offset + 1) as nat % 0x10 * 0x100 + FatByte(disk, offset) as nat
  {
    var at := n + n / 2;
    assert at == if n % 2 == 1 then offset + 1 else offset;
    HighHalf(FatByte(disk, at), FatByte(disk, at + 1));
    LowHalf(FatByte(disk, at), FatByte(disk, at + 1));
  }

  /** The first `k` sectors are in memory from `start` on. */
  ghost predicate Loaded(disk: Disk, sectors: seq<nat>, before: seq<Byte>, now: seq<Byte>, start: nat, k: nat)
    requires DiskOk(disk) && (forall i :: 0 <= i < |sectors| ==> sectors[i] < |disk|)
  {
    && k <= |sectors| && start + k * SECTOR <= |before|
    && now == Spliced(before, start, Concat(disk, sectors[..k]))
  }

  lemma LoadedFirst(disk: Disk, sectors: seq<nat>, before: seq<Byte>, now: seq<Byte>, start: nat)
    requires DiskOk(disk) && (forall i :: 0 <= i < |sectors| ==> sectors[i] < |disk|)
    requires |sectors| > 0 && start + SECTOR <= |before|
    requires now == Spliced(before, start, disk[sectors[0]])
    ensures Loaded(disk, sectors, before, now, start, 1)
  {
    assert sectors[..1] == [sectors[0]];
    assert Concat(disk, []) + disk[sectors[0]] == disk[sectors[0]];
    assert [sectors[0]][..0] == [];
  }

  lemma LoadedNext(disk: Disk, sectors: seq<nat>, before: seq<Byte>, sofar: seq<Byte>, now: seq<Byte>,
                   start: nat, k: nat)
    requires DiskOk(disk) && (forall i :: 0 <= i < |sectors| ==> sectors[i] < |disk|)
    requires Loaded(disk, sectors, before, sofar, start, k) && k < |sectors| && start + (k + 1) * SECTOR <= |before|
    requires now == Spliced(sofar, start + k * SECTOR, disk[sectors[k]])
    ensures Loaded(disk, sectors, before, now, start, k + 1)
  {
    assert sectors[..k + 1][..k] == sectors[..k];
    var at := start + k * SECTOR;
    assert sofar[..at] == before[..start] + Concat(disk, sectors[..k]);
    assert sofar[at + SECTOR..] == before[at + SECTOR..];
  }

  lemma {:induction false} ConcatAt(disk: Disk, sectors: seq<nat>, i: nat)
    requires DiskOk(disk) && (forall i :: 0 <= i < |sectors| ==> sectors[i] < |disk|) && i < |sectors|
    ensures Concat(disk, sectors)[i * SECTOR..i * SECTOR + SECTOR] == disk[sectors[i]]
  {
    var init := sectors[..|sectors| - 1];
    if i < |init| {
      ConcatAt(disk, init, i);
      assert i * SECTOR + SECTOR <= |Concat(disk, init)|;
      assert Concat(disk, sectors)[..|Concat(disk, init)|] == Concat(disk, init);
    }
  }

  lemma LoadedWhole(disk: Disk, chain: seq<nat>, rootSectors: nat, rootStart: nat, before: seq<Byte>, now: seq<Byte>,
                    at: nat)
    requires DiskOk(disk) && forall i :: 0 <= i < |chain| ==> chain[i] >= 2
    requires forall i :: 0 <= i < |chain| ==> chain[i] - 2 + rootSectors + rootStart < |disk|
    requires Loaded(disk, SectorsOf(chain, rootSectors, rootStart), before, now, at, |chain|)
    ensures InMemory(disk, chain, rootSectors, rootStart, now, at) && SameOutside(before, now, at, |chain| * 512)
  {
    var sectors := SectorsOf(chain, rootSectors, rootStart);
    assert sectors[..|chain|] == sectors;
    var data := Concat(disk, sectors);
    assert now[at..at + |data|] == data;
    forall i: nat | i < |chain| ensures now[at + i * 512..at + i * 512 + 512] == disk[sectors[i]] {
      ConcatAt(disk, sectors, i);
      SliceOfSlice(now, at, |data|, i * 512, 512);
    }
  }

  lemma SliceOfSlice(s: seq<Byte>, at: nat, n: nat, from: nat, m: nat)
    requires at + n <= |s| && from + m <= n
    ensures s[at..at + n][from..from + m] == s[at + from..at + from + m]
  {
    var one, other := s[at..at + n][from..from + m], s[at + from..at + from + m];
    forall x: nat | x < m ensures one[x] == other[x] {
    }
  }

  lemma NotEnd(table: seq<nat>, chain: seq<nat>, k: nat)
    requires |table| == ENTRIES && Walk(table, chain) && 1 <= k <= |chain| && table[chain[k - 1]] < ENTRIES
    ensures k < |chain| && table[chain[k - 1]] == chain[k]
  {
    if k < |chain| {
      EndsNotBefore(table, chain, k - 1);
    }
  }

  lemma LeavesAtLast(table: seq<nat>, chain: seq<nat>, i: nat)
    requires |table| == ENTRIES && Walk(table, chain) && i < |chain| && table[chain[i]] >= ENTRIES
    ensures i == |chain| - 1
  {
    if i < |chain| - 1 {
      EndsNotBefore(table, chain, i);
    }
  }

  // ---- A disk the loader does not stop on

  /** A floppy with one file of one cluster, ended by the mark 0xff8. */
  function OtherMark(): Disk {
    seq(2880, s => seq(SECTOR, i =>
      (if s == FAT_START && i == 3 then 0xf8 else if s == FAT_START && i == 4 then 0x0f else 0) as Byte))
  }

  lemma OtherMarkRunsOn()
    ensures DiskOk(OtherMark()) && SpecChain(Table(OtherMark()), [2]) && Table(OtherMark())[2] == FIRST_END_MARK
    ensures Visits(Table(OtherMark()), 2, 1) == [2, FIRST_END_MARK]
  {
    var disk := OtherMark();
    assert FatByte(disk, 3) == 0xf8 && FatByte(disk, 4) == 0x0f;
    assert Table(disk)[2] == Entry(disk, 2) == FIRST_END_MARK;
    StopsAtTheEnd(Table(disk), [2], 1);
  }
}
