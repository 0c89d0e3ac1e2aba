/** The invariant of the file system can be met: for every layout, an image with empty inodes. */
module DiskImage {
  import opened Layout
  import opened Inodes
  import opened FileSystem

  function ZeroDisk(n: nat): (r: seq<Block>)
    ensures |r| == n && forall b :: 0 <= b < n ==> r[b] == ZERO_BLOCK
  {
    if n == 0 then [] else ZeroDisk(n - 1) + [ZERO_BLOCK]
  }

  function NoInodes(n: nat): (r: seq<Inode>)
    ensures |r| == n && forall i :: 0 <= i < n ==> r[i] == Inode((0, 0), 0, seq(13, _ => 0))
  {
    if n == 0 then [] else NoInodes(n - 1) + [Inode((0, 0), 0, seq(13, _ => 0))]
  }

  /** The zeroed image with the first n blocks marked in the bitmap. */
  ghost predicate MarkedTo(fs: Fs, sb: Super, n: nat)
  {
    && Shaped(fs) && fs.sb == sb && fs.inodes == NoInodes(sb.ninodes) && fs.owner == map[]
    && (forall b: nat :: b < sb.size ==> (Used(fs, b) <==> b < n))
    && (forall b: nat :: b < sb.bmapstart ==> fs.disk[b] == ZERO_BLOCK)
  }

  lemma {:induction false} BitsOfZero(m: nat)
    ensures !Bit(0, m)
  {
    if m > 0 { BitsOfZero(m - 1); }
  }

  lemma {:induction false} Marked(sb: Super, n: nat) returns (fs: Fs)
    requires SuperOk(sb) && n <= sb.size
    ensures MarkedTo(fs, sb, n)
  {
    if n == 0 {
      fs := Fs(sb, ZeroDisk(sb.size), NoInodes(sb.ninodes), map[]);
      forall b: nat | b < sb.size ensures !Used(fs, b) { BBlockInRange(sb, b); BitsOfZero(b % BPB % 8); }
    } else {
      var mid := Marked(sb, n - 1);
      BBlockInRange(sb, n - 1);
      fs := MarkUsed(mid, n - 1);
      forall b: nat | b < sb.size ensures Used(fs, b) <==> b < n { MarkUsedBits(mid, n - 1, b); }
    }
  }

  /** With every layout there is an image that satisfies the invariant: empty inodes and the metadata
      marked. */
  lemma EmptyImageValid(sb: Super) returns (fs: Fs)
    requires SuperOk(sb)
    ensures Valid(fs) && fs.sb == sb
  {
    fs := Marked(sb, DataStart(sb));
    forall pl: Place ensures Pointer(fs, pl) == 0 {}
    forall b: nat | b < sb.size ensures Counted(fs, {}, b) {}
    forall i: nat | i < |fs.inodes|
      ensures Recorded(fs, i)
    {
      forall w: nat | w < NWORDS ensures Word(ZERO_BLOCK, w) == 0 { ZeroWords(w); }
    }
  }
}
