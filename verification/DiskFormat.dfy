/** Where things are on disk, byte by byte: what `mkfs` and the kernel have to agree on. */
module DiskFormat {
  import opened Blocks
  import opened Bitmap
  import opened Dinodes
  import opened FileModel
  import opened FileContent
  import opened FileWrite
  import opened DirModel

  /** A half word at byte p. */
  function HalfAt(b: Block, p: nat): int
    requires p + 2 <= BSIZE
  {
    var x: int, y: int := b[p], b[p + 1];
    x + 0x100 * y
  }

  lemma HalvesOf(b: Block, i: nat)
    requires i < WPB
    ensures GetWord(b, i) == HalfAt(b, 4 * i) + 0x1_0000 * HalfAt(b, 4 * i + 2)
    ensures GetWord(b, i) % 0x1_0000 == HalfAt(b, 4 * i) && GetWord(b, i) / 0x1_0000 == HalfAt(b, 4 * i + 2)
  {
    var lo, hi := HalfAt(b, 4 * i), HalfAt(b, 4 * i + 2);
    assert GetWord(b, i) == lo + 0x1_0000 * hi && 0 <= lo < 0x1_0000;
  }

  /** Inode i occupies the 64 bytes at 64 * (i % 8) of block i / 8 of the inode area: four half words,
      the size and thirteen block numbers. */
  lemma InodeOnDisk(sb: Super, fs: FS, i: nat, k: nat)
    requires Shape(sb, fs) && i < sb.ninodes && k < 13
    ensures sb.inodestart + i / 8 < sb.size
    ensures var x, b, p := DiskInode(sb, fs, i), fs.blocks[sb.inodestart + i / 8], 64 * (i % 8);
            && x.typ == HalfAt(b, p) && x.major == HalfAt(b, p + 2)
            && x.minor == HalfAt(b, p + 4) && x.nlink == HalfAt(b, p + 6)
            && x.size == HalfAt(b, p + 8) + 0x1_0000 * HalfAt(b, p + 10)
            && x.addrs[k] == HalfAt(b, p + 12 + 4 * k) + 0x1_0000 * HalfAt(b, p + 14 + 4 * k)
  {
    var b, w := fs.blocks[IBlock(sb, i)], WPI * (i % 8);
    HalvesOf(b, w);
    HalvesOf(b, w + 1);
    HalvesOf(b, w + 2);
    HalvesOf(b, w + 3 + k);
    hide HalfAt, GetWord;
    var ws := GetWords(b, w, WPI);
    assert ws[0] == GetWord(b, w + 0) && ws[1] == GetWord(b, w + 1) && ws[2] == GetWord(b, w + 2);
    assert ws[3..][k] == ws[3 + k] == GetWord(b, w + (3 + k));
  }

  lemma {:induction false} BitValue(x: nat, k: nat)
    ensures Pow2(k) > 0 && (TestBit(x, k) <==> x / Pow2(k) % 2 == 1)
  {
    if k > 0 {
      BitValue(x / 2, k - 1);
      DivTwice(x, Pow2(k - 1));
    } else {
      assert x / 1 == x;
    }
  }

  lemma DivTwice(x: nat, p: nat)
    requires p > 0
    ensures x / 2 / p == x / (2 * p)
  {
    var q, r := x / 2 / p, x / 2 % p;
    assert x / 2 == q * p + r;
    assert x == 2 * (q * p + r) + x % 2;
    assert 2 * (q * p) == q * (2 * p);
    assert x == q * (2 * p) + (2 * r + x % 2) && 0 <= 2 * r + x % 2 < 2 * p;
    QuotientIs(x, 2 * p, q, 2 * r + x % 2);
  }

  lemma QuotientIs(x: int, d: int, q: int, r: int)
    requires d > 0 && r >= 0 && x == q * d + r && r < d
    ensures x / d == q
  {
    var e, y := x / d - q, x % d;
    assert x == x / d * d + y;
    assert e * d == r - y;
    assert -d < e * d < d;
    assert e > 0 ==> e * d >= d;
    assert e < 0 ==> e * d <= -d;
  }

  /** Block b is in use exactly when bit b % 8 of byte b / 8 of the free map is set. */
  lemma FreeBitOnDisk(sb: Super, fs: FS, b: nat)
    requires Shape(sb, fs) && b < sb.size
    ensures sb.bmapstart + b / 4096 < sb.size && Pow2(b % 8) > 0
    ensures InUse(sb, fs, b) <==> fs.blocks[sb.bmapstart + b / 4096][b % 4096 / 8] / Pow2(b % 8) % 2 == 1
  {
    hide TestBit, Pow2;
    assert b % BPB % 8 == b % 8;
    BitValue(fs.blocks[BBlock(sb, b)][b % BPB / 8], b % 8);
  }

  /** Byte q of a file lies at q % 512 of the block that its pointer q / 512 names: one of the first
      twelve, or entry q / 512 - 12 of the indirect block, which the thirteenth names. */
  lemma FileByteOnDisk(sb: Super, fs: FS, i: nat, q: nat)
    requires Shape(sb, fs) && i < sb.ninodes && q < fs.inodes[i].size <= MAXBYTES
    ensures var a, n := fs.inodes[i].addrs, q / 512;
            && (n < 12 && 0 < a[n] < sb.size ==> Content(sb, fs, i)[q] == fs.blocks[a[n]][q % 512])
            && (n >= 12 && 0 < a[12] < sb.size && 0 < GetWord(fs.blocks[a[12]], n - 12) < sb.size ==>
                 Content(sb, fs, i)[q] == fs.blocks[GetWord(fs.blocks[a[12]], n - 12)][q % 512])
  {
    hide GetWord;
    assert Content(sb, fs, i)[q] == ByteOf(sb, fs, i, 0 + q);
  }

  /** A directory entry: the inode number in its first two bytes, then the name up to a NUL. */
  lemma EntryOnDisk(e: Entry)
    ensures var lo: int, hi: int := e[0], e[1]; Inum(e) == lo + 0x100 * hi
    ensures NameIn(e) == e[2..2 + |NameIn(e)|] && 0 !in NameIn(e)
    ensures |NameIn(e)| < 14 ==> e[2 + |NameIn(e)|] == 0
  {
    var x := UpToNul(e[2..]);
    assert x == e[2..][..|x|];
  }
}
