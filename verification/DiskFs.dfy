/** The file image: its writer (create_diskfs.py) and its reader through a cache of one sector
    (asmg/diskfs.g). */
module DiskFs {
  import opened Options
  import opened CString

  datatype File = File(name: Str, data: seq<Byte>)

  const SECTOR := 512
  const EOF := 0xffff_ffff

  const MAGIC: seq<Byte> := ['D' as int, 'I' as int, 'S' as int, 'K' as int, 'F' as int, 'S' as int, ' ' as int, ' ' as int]

  // ----- the image -----

  /** A number in four bytes, the most significant first. */
  function Big32(v: int): (b: seq<Byte>)
    ensures |b| == 4
  {
    [v / 0x100_0000 % 256, v / 0x1_0000 % 256, v / 256 % 256, v % 256]
  }

  /** Where the k-th entry of the table begins. */
  function EntryPos(files: seq<File>, k: nat): (p: nat)
    requires k <= |files|
    ensures p >= 8
  {
    if k == 0 then 8 else EntryPos(files, k - 1) + |files[k - 1].name| + 9
  }

  /** Where the data of the k-th file begins. */
  function DataPos(files: seq<File>, k: nat): (p: nat)
    requires k <= |files|
    ensures p >= 9
  {
    if k == 0 then EntryPos(files, |files|) + 1 else DataPos(files, k - 1) + |files[k - 1].data|
  }

  function Entry(files: seq<File>, k: nat): (e: seq<Byte>)
    requires k < |files|
    ensures |e| == |files[k].name| + 9
  {
    files[k].name + [0] + Big32(DataPos(files, k)) + Big32(|files[k].data|)
  }

  function Entries(files: seq<File>, k: nat): seq<Byte>
    requires k <= |files|
    decreases |files| - k
  {
    if k == |files| then [] else Entry(files, k) + Entries(files, k + 1)
  }

  function Data(files: seq<File>, k: nat): seq<Byte>
    requires k <= |files|
    decreases |files| - k
  {
    if k == |files| then [] else files[k].data + Data(files, k + 1)
  }

  function Image(files: seq<File>): seq<Byte> {
    MAGIC + Entries(files, 0) + [0] + Data(files, 0)
  }

  /** From the k-th entry on the image is the rest of the table, the end mark and the data. */
  lemma {:induction false} EntriesAt(files: seq<File>, k: nat)
    requires k <= |files|
    ensures EntryPos(files, k) <= |Image(files)|
    ensures Image(files)[EntryPos(files, k)..] == Entries(files, k) + [0] + Data(files, 0)
    decreases k
  {
    if k == 0 {
      assert Image(files) == MAGIC + (Entries(files, 0) + [0] + Data(files, 0));
    } else {
      EntriesAt(files, k - 1);
      var p, n := EntryPos(files, k - 1), |files[k - 1].name| + 9;
      var rest := Entries(files, k) + [0] + Data(files, 0);
      assert Image(files)[p..] == Entry(files, k - 1) + rest;
      assert Image(files)[p..][n..] == rest;
      assert Image(files)[p..][n..] == Image(files)[p + n..];
    }
  }

  lemma {:induction false} DataAt(files: seq<File>, k: nat)
    requires k <= |files|
    ensures DataPos(files, k) <= |Image(files)| && Image(files)[DataPos(files, k)..] == Data(files, k)
    decreases k
  {
    if k == 0 {
      EntriesAt(files, |files|);
      var p := EntryPos(files, |files|);
      assert Image(files)[p..] == [0] + Data(files, 0);
      assert Image(files)[p + 1..] == Image(files)[p..][1..];
    } else {
      DataAt(files, k - 1);
      var p, n := DataPos(files, k - 1), |files[k - 1].data|;
      assert Image(files)[p..] == files[k - 1].data + Data(files, k);
      assert Image(files)[p + n..] == Image(files)[p..][n..];
    }
  }

  // ----- the writer -----

  /** struct.pack('!II', ...) takes numbers of 32 bits. */
  predicate Fits(files: seq<File>) {
    forall k :: 0 <= k < |files| ==> DataPos(files, k) < 0x1_0000_0000 && |files[k].data| < 0x1_0000_0000
  }

  /** The first loop of main: where each file will start, counted from the end of the table. */
  method Layout(files: seq<File>) returns (tableLen: int, starts: seq<int>)
    ensures tableLen + 8 == EntryPos(files, |files|) && |starts| == |files|
    ensures forall k :: 0 <= k < |files| ==> starts[k] + tableLen + 9 == DataPos(files, k)
  {
    tableLen, starts := 0, [];
    var filesLen := 0;
    var i := 0;
    while i < |files|
      invariant 0 <= i <= |files| && |starts| == i && tableLen + 8 == EntryPos(files, i)
      invariant filesLen + EntryPos(files, |files|) + 1 == DataPos(files, i)
      invariant forall k :: 0 <= k < i ==> starts[k] + EntryPos(files, |files|) + 1 == DataPos(files, k)
    {
      starts := starts + [filesLen];
      tableLen := tableLen + 9 + |files[i].name|;
      filesLen := filesLen + |files[i].data|;
      i := i + 1;
    }
  }

  /** The second loop of main; ok is false where packing a number raises an error. */
  method WriteTable(files: seq<File>, tableLen: int, starts: seq<int>) returns (ok: bool, image: seq<Byte>)
    requires |starts| == |files| && forall k :: 0 <= k < |files| ==> starts[k] + tableLen == DataPos(files, k)
    ensures ok <==> Fits(files)
    ensures ok ==> image == MAGIC + Entries(files, 0)
  {
    hide DataPos;
    image := MAGIC;
    var i := 0;
    while i < |files|
      invariant 0 <= i <= |files| && image + Entries(files, i) == MAGIC + Entries(files, 0)
      invariant forall k :: 0 <= k < i ==> DataPos(files, k) < 0x1_0000_0000 && |files[k].data| < 0x1_0000_0000
    {
      var start, size := starts[i] + tableLen, |files[i].data|;
      if start >= 0x1_0000_0000 || size >= 0x1_0000_0000 {
        return false, image;
      }
      Reassociate(image, files[i].name + [0], Big32(start), Big32(size), Entries(files, i + 1));
      image := image + (files[i].name + [0]) + Big32(start) + Big32(size);
      i := i + 1;
    }
    ok := true;
  }

  /** main */
  method WriteImage(files: seq<File>) returns (ok: bool, image: seq<Byte>)
    ensures ok <==> Fits(files)
    ensures ok ==> image == Image(files)
  {
    hide Entries, DataPos, EntryPos;
    var tableLen, starts := Layout(files);
    ok, image := WriteTable(files, tableLen + 9, starts);
    if !ok {
      return;
    }
    image := image + [0];
    var i := 0;
    while i < |files|
      invariant 0 <= i <= |files| && image + Data(files, i) == Image(files)
    {
      assert image + (files[i].data + Data(files, i + 1)) == image + files[i].data + Data(files, i + 1);
      image := image + files[i].data;
      i := i + 1;
    }
  }

  lemma Reassociate(a: seq<Byte>, b: seq<Byte>, c: seq<Byte>, d: seq<Byte>, e: seq<Byte>)
    ensures a + (b + c + d + e) == a + b + c + d + e
  {
  }

  // ----- the reader -----

  /** A disk is its bytes; behind its end everything reads as zero. */
  function ByteAt(disk: seq<Byte>, a: nat): Byte {
    if a < |disk| then disk[a] else 0
  }

  /** atapio_read_sect */
  function Sector(disk: seq<Byte>, n: nat): (s: seq<Byte>)
    ensures |s| == SECTOR
  {
    seq<Byte>(SECTOR, i requires 0 <= i < SECTOR => ByteAt(disk, SECTOR * n + i))
  }

  /** An open file. */
  class DiskFd {
    const disk: seq<Byte>
    const start: nat
    const size: nat
    var pos: int
    var cache: Option<seq<Byte>>

    /** The position is on the disk and not behind the file; the cache is empty, or holds its sector. */
    predicate Valid()
      reads this
    {
      0 <= start + pos && pos <= size && (cache.Some? ==> cache.value == Sector(disk, (start + pos) / SECTOR))
    }

    /** diskfd_init */
    constructor (disk: seq<Byte>, start: nat, size: nat)
      ensures Valid() && this.disk == disk && this.start == start && this.size == size && pos == 0
    {
      this.disk, this.start, this.size := disk, start, size;
      pos, cache := 0, None;
    }

    /** diskfd_read */
    method Read() returns (c: int)
      requires Valid()
      modifies this
      ensures Valid()
      ensures if old(pos) < size then c == ByteAt(disk, start + old(pos)) && pos == old(pos) + 1 else c == EOF && pos == old(pos)
    {
      if pos == size {
        return EOF;
      }
      var p := pos + start;
      var sectPos := p % SECTOR;
      if cache == None {
        cache := Some(Sector(disk, p / SECTOR));
      }
      c := cache.value[sectPos];
      SectorStep(p);
      if sectPos == 511 {
        cache := None;
      }
      pos := pos + 1;
    }

    /** diskfd_seek.  Nothing keeps the position from lying before the file: a later read passes its test,
        which is signed, and gives what stands on the disk before the file. */
    method Seek(off0: int, whence: int) returns (off: int)
      modifies this
      ensures off == var t := off0 + (if whence == 1 then old(pos) else if whence == 2 then size else 0); if t > size then size else t
      ensures pos == off && cache == None
      ensures start + off >= 0 ==> Valid()
    {
      off := off0;
      if whence == 1 {
        off := off + pos;
      }
      if whence == 2 {
        off := off + size;
      }
      if off > size {
        off := size;
      }
      pos := off;
      cache := None;
    }
  }

  lemma SectorStep(p: nat)
    ensures SECTOR * (p / SECTOR) + p % SECTOR == p
    ensures p % SECTOR != 511 ==> (p + 1) / SECTOR == p / SECTOR
  {
  }

  // ----- mounting -----

  /** The image lies on the disk at `start`, and all its positions are signed 32-bit numbers. */
  predicate OnDisk(files: seq<File>, disk: seq<Byte>, start: nat) {
    start + |Image(files)| < 0x8000_0000 && forall i :: 0 <= i < |Image(files)| ==> ByteAt(disk, start + i) == Image(files)[i]
  }

  /** What the tables of the mount hold after k entries. */
  function StartsOf(files: seq<File>, start: nat, k: nat): map<Str, int>
    requires k <= |files|
  {
    if k == 0 then map[] else StartsOf(files, start, k - 1)[files[k - 1].name := start + DataPos(files, k - 1)]
  }

  function SizesOf(files: seq<File>, k: nat): map<Str, int>
    requires k <= |files|
  {
    if k == 0 then map[] else SizesOf(files, k - 1)[files[k - 1].name := |files[k - 1].data|]
  }

  predicate DistinctNames(files: seq<File>, n: nat)
    requires n <= |files|
  {
    forall i, j :: 0 <= i < j < n ==> files[i].name != files[j].name
  }

  lemma EntryBytes(files: seq<File>, k: nat, j: nat)
    requires k < |files| && j < |files[k].name| + 9
    ensures EntryPos(files, k) + j < |Image(files)| && Image(files)[EntryPos(files, k) + j] == Entry(files, k)[j]
    ensures EntryPos(files, k + 1) == EntryPos(files, k) + |files[k].name| + 9
  {
    hide Image, Entry;
    EntriesAt(files, k);
    var s := Entry(files, k) + Entries(files, k + 1) + [0] + Data(files, 0);
    assert Image(files)[EntryPos(files, k)..] == s;
    assert Image(files)[EntryPos(files, k) + j] == s[j];
  }

  lemma EndMark(files: seq<File>)
    ensures EntryPos(files, |files|) < |Image(files)| && Image(files)[EntryPos(files, |files|)] == 0
  {
    hide Image;
    EntriesAt(files, |files|);
    assert Image(files)[EntryPos(files, |files|)..] == [] + [0] + Data(files, 0);
    assert Image(files)[EntryPos(files, |files|)] == Image(files)[EntryPos(files, |files|)..][0];
  }

  function FromBig(a: int, b: int, c: int, d: int): int {
    ((a * 256 + b) * 256 + c) * 256 + d
  }

  /** The number in the four bytes at p. */
  function BigAt(disk: seq<Byte>, p: nat): int {
    FromBig(ByteAt(disk, p), ByteAt(disk, p + 1), ByteAt(disk, p + 2), ByteAt(disk, p + 3))
  }

  lemma BigValue(v: int)
    requires 0 <= v < 0x1_0000_0000
    ensures var b := Big32(v); FromBig(b[0], b[1], b[2], b[3]) == v
  {
    assert v / 256 == (v / 0x1_0000) * 256 + v / 256 % 256;
    assert v / 0x1_0000 == (v / 0x100_0000) * 256 + v / 0x1_0000 % 256;
    assert v == (v / 256) * 256 + v % 256;
  }

  /** The number whose four bytes, the highest first, begin at p. */
  predicate NumberAt(image: seq<Byte>, p: nat, v: int) {
    && p + 4 <= |image|
    && v == 0x100_0000 * (image[p] as int) + 0x1_0000 * (image[p + 1] as int) + 0x100 * (image[p + 2] as int) + image[p + 3] as int
  }

  /** The format: the image begins with "DISKFS  " and the table.  Each entry has the name, a zero, and two
      numbers; at the first of these the data of the file begin, and the second is how long they are.  The
      next entry follows at once, and behind the last one there is a zero; then come the data of all files,
      one behind the other, up to the end. */
  lemma TableFormat(files: seq<File>, k: nat)
    requires Fits(files) && k < |files|
    ensures var image, p, name, data := Image(files), EntryPos(files, k), files[k].name, files[k].data;
            && p + |name| + 9 <= |image| && image[p..p + |name|] == name && image[p + |name|] == 0
            && NumberAt(image, p + |name| + 1, DataPos(files, k)) && NumberAt(image, p + |name| + 5, |data|)
            && DataPos(files, k) + |data| <= |image| && image[DataPos(files, k)..DataPos(files, k) + |data|] == data
    ensures EntryPos(files, 0) == 8 && EntryPos(files, k + 1) == EntryPos(files, k) + |files[k].name| + 9
    ensures |Image(files)| > 8 && forall i :: 0 <= i < 8 ==> Image(files)[i] == "DISKFS  "[i] as int
    ensures EntryPos(files, |files|) < |Image(files)| && Image(files)[EntryPos(files, |files|)] == 0
    ensures DataPos(files, 0) == EntryPos(files, |files|) + 1 && DataPos(files, k + 1) == DataPos(files, k) + |files[k].data|
    ensures |Image(files)| == DataPos(files, |files|)
  {
    hide Image, Entry, Big32;
    DataAt(files, |files|);
    EndMark(files);
    MagicFirst(files);
    EntryFormat(files, k);
    DataSlice(files, k);
  }

  lemma MagicFirst(files: seq<File>)
    ensures |Image(files)| > 8 && forall i :: 0 <= i < 8 ==> Image(files)[i] == "DISKFS  "[i] as int
  {
    hide Entries, Data;
  }

  lemma DataSlice(files: seq<File>, k: nat)
    requires k < |files|
    ensures var at, n := DataPos(files, k), |files[k].data|;
            at + n <= |Image(files)| && Image(files)[at..at + n] == files[k].data
  {
    hide Image, DataPos;
    DataAt(files, k);
    var at, n := DataPos(files, k), |files[k].data|;
    assert Image(files)[at..] == files[k].data + Data(files, k + 1);
    assert Image(files)[at..at + n] == Image(files)[at..][..n];
  }

  lemma EntryFormat(files: seq<File>, k: nat)
    requires Fits(files) && k < |files|
    ensures var image, p, n := Image(files), EntryPos(files, k), |files[k].name|;
            && p + n + 9 <= |image| && image[p..p + n] == files[k].name && image[p + n] == 0
            && NumberAt(image, p + n + 1, DataPos(files, k)) && NumberAt(image, p + n + 5, |files[k].data|)
  {
    hide Image, EntryPos, DataPos, Entry, Big32;
    var p, n := EntryPos(files, k), |files[k].name|;
    EntryParts(files, k);
    EntryBytes(files, k, n + 8);
    EntryBytes(files, k, n);
    assert Image(files)[p..p + n] == files[k].name by {
      forall j | 0 <= j < n ensures Image(files)[p + j] == files[k].name[j] {
        EntryBytes(files, k, j);
        assert Entry(files, k)[..n][j] == Entry(files, k)[j];
      }
    }
    EntryNumber(files, k, n + 1, DataPos(files, k));
    EntryNumber(files, k, n + 5, |files[k].data|);
  }

  lemma EntryNumber(files: seq<File>, k: nat, j: nat, v: int)
    requires k < |files| && j + 4 <= |files[k].name| + 9 && 0 <= v < 0x1_0000_0000
    requires var e, w := Entry(files, k), Big32(v); e[j] == w[0] && e[j + 1] == w[1] && e[j + 2] == w[2] && e[j + 3] == w[3]
    ensures NumberAt(Image(files), EntryPos(files, k) + j, v)
  {
    hide Image, EntryPos, Entry, Big32;
    EntryBytes(files, k, j);
    EntryBytes(files, k, j + 1);
    EntryBytes(files, k, j + 2);
    EntryBytes(files, k, j + 3);
    BigValue(v);
  }

  lemma EntryParts(files: seq<File>, k: nat)
    requires k < |files|
    ensures var e, n, a, b := Entry(files, k), |files[k].name|, Big32(DataPos(files, k)), Big32(|files[k].data|);
            && e[..n] == files[k].name && e[n] == 0
            && e[n + 1] == a[0] && e[n + 2] == a[1] && e[n + 3] == a[2] && e[n + 4] == a[3]
            && e[n + 5] == b[0] && e[n + 6] == b[1] && e[n + 7] == b[2] && e[n + 8] == b[3]
  {
    hide DataPos, Big32;
  }

  /** Four bytes; no shift overflows while the number is a signed 32-bit one. */
  method ReadBig(fd: DiskFd) returns (v: int)
    requires fd.Valid() && fd.pos + 4 <= fd.size
    modifies fd
    ensures fd.Valid() && fd.pos == old(fd.pos) + 4
    ensures v == BigAt(fd.disk, fd.start + old(fd.pos))
  {
    hide Sector;
    v := fd.Read();
    var c := fd.Read();
    v := v * 256 + c;
    c := fd.Read();
    v := v * 256 + c;
    c := fd.Read();
    v := v * 256 + c;
  }

  /** The inner loop of diskmount_init: the bytes up to a zero. */
  method ReadName(fd: DiskFd, ghost files: seq<File>, ghost k: nat) returns (filename: Str)
    requires fd.Valid() && k <= |files| && OnDisk(files, fd.disk, fd.start) && fd.pos == EntryPos(files, k) && fd.size == 0x7fff_ffff
    modifies fd
    ensures fd.Valid() && fd.pos == EntryPos(files, k) + |filename| + 1
    ensures filename == if k < |files| then files[k].name else []
  {
    hide Image, Sector;
    filename := [];
    EndMark(files);
    if k < |files| {
      EntryBytes(files, k, 0);
    }
    while true
      invariant fd.Valid() && fd.pos == EntryPos(files, k) + |filename| && fd.pos < |Image(files)|
      invariant filename <= if k < |files| then files[k].name else []
      decreases |Image(files)| - fd.pos
    {
      ghost var p := fd.pos;
      var c := fd.Read();
      assert c == Image(files)[p];
      if k < |files| {
        EntryBytes(files, k, |filename|);
        EntryBytes(files, k, |filename| + 1);
      }
      if c == 0 {
        return;
      }
      filename := filename + [c];
    }
  }

  /** diskmount_init, on a disk that holds an image; ok is false when it stops at a repeated name. */
  method Mount(disk: seq<Byte>, start: nat, ghost files: seq<File>) returns (ok: bool, starts: map<Str, int>, sizes: map<Str, int>)
    requires OnDisk(files, disk, start) && (forall k :: 0 <= k < |files| ==> files[k].name != [])
    ensures ok <==> DistinctNames(files, |files|)
    ensures ok ==> starts == StartsOf(files, start, |files|) && sizes == SizesOf(files, |files|)
  {
    hide Image, Sector, OnDisk, EntryPos, DataPos, DistinctNames, StartsOf, SizesOf, BigAt;
    starts, sizes := map[], map[];
    NoTables(files, start);
    ghost var k := 0;
    var fd := new DiskFd(disk, start, 0x7fff_ffff);
    Skip(fd, files);
    while true
      invariant fresh(fd) && fd.Valid() && k <= |files| && fd.pos == EntryPos(files, k) && fd.size == 0x7fff_ffff
      invariant starts == StartsOf(files, start, k) && sizes == SizesOf(files, k) && DistinctNames(files, k)
      decreases |files| - k
    {
      var filename := ReadName(fd, files, k);
      if |filename| == 0 {
        break;
      }
      var pos, size := ReadNumbers(fd, files, k);
      Repeated(files, start, k);
      TablesNext(files, start, k);
      if filename in starts || filename in sizes {
        return false, starts, sizes;
      }
      starts := starts[filename := start + pos];
      sizes := sizes[filename := size];
      k := k + 1;
    }
    ok := true;
  }

  /** The start and the size behind a name. */
  method ReadNumbers(fd: DiskFd, ghost files: seq<File>, ghost k: nat) returns (pos: int, size: int)
    requires fd.Valid() && k < |files| && OnDisk(files, fd.disk, fd.start) && fd.size == 0x7fff_ffff
    requires fd.pos == EntryPos(files, k) + |files[k].name| + 1
    modifies fd
    ensures fd.Valid() && fd.pos == EntryPos(files, k + 1) && pos == DataPos(files, k) && size == |files[k].data|
  {
    hide Image, Sector, OnDisk, EntryPos, DataPos, BigAt;
    NumberBytes(files, fd.disk, fd.start, k);
    pos := ReadBig(fd);
    size := ReadBig(fd);
  }

  lemma NoTables(files: seq<File>, start: nat)
    ensures StartsOf(files, start, 0) == map[] && SizesOf(files, 0) == map[] && DistinctNames(files, 0)
  {
  }

  lemma TablesNext(files: seq<File>, start: nat, k: nat)
    requires k < |files|
    ensures StartsOf(files, start, k + 1) == StartsOf(files, start, k)[files[k].name := start + DataPos(files, k)]
    ensures SizesOf(files, k + 1) == SizesOf(files, k)[files[k].name := |files[k].data|]
  {
    hide DataPos;
  }

  /** The check for a repeated name finds one exactly if there is one. */
  lemma Repeated(files: seq<File>, start: nat, k: nat)
    requires k < |files| && DistinctNames(files, k)
    ensures var taken := files[k].name in StartsOf(files, start, k) || files[k].name in SizesOf(files, k);
            (DistinctNames(files, k + 1) <==> !taken) && (taken ==> !DistinctNames(files, |files|))
  {
    hide StartsOf, SizesOf, DistinctNames;
    KnownNames(files, start, k);
    NameTaken(files, k);
  }

  /** The magic number is passed over. */
  method Skip(fd: DiskFd, ghost files: seq<File>)
    requires fd.Valid() && fd.pos == 0 && fd.size == 0x7fff_ffff
    modifies fd
    ensures fd.Valid() && fd.pos == EntryPos(files, 0)
  {
    hide Sector;
    var i := 0;
    while i < 8
      invariant 0 <= i <= 8 && fd.Valid() && fd.pos == i
    {
      var c := fd.Read();
      i := i + 1;
    }
  }

  /** The two numbers behind a name. */
  lemma NumberBytes(files: seq<File>, disk: seq<Byte>, start: nat, k: nat)
    requires k < |files| && OnDisk(files, disk, start)
    ensures var p := EntryPos(files, k) + |files[k].name| + 1;
            && p + 8 == EntryPos(files, k + 1) && start + p + 8 < 0x8000_0000
            && BigAt(disk, start + p) == DataPos(files, k) && BigAt(disk, start + (p + 4)) == |files[k].data|
  {
    hide Image;
    var n := |files[k].name|;
    var p := EntryPos(files, k) + n + 1;
    DataAt(files, k);
    DataAt(files, k + 1);
    EntriesAt(files, k + 1);
    BigValue(DataPos(files, k));
    BigValue(|files[k].data|);
    EntryBytes(files, k, 0);
    Word(files, disk, start, k, n + 1, Big32(DataPos(files, k)));
    Word(files, disk, start, k, n + 5, Big32(|files[k].data|));
  }

  /** Four bytes of an entry, as they lie on the disk. */
  lemma Word(files: seq<File>, disk: seq<Byte>, start: nat, k: nat, j: nat, w: seq<Byte>)
    requires k < |files| && OnDisk(files, disk, start) && j + 4 <= |files[k].name| + 9 && |w| == 4 && Entry(files, k)[j..j + 4] == w
    ensures BigAt(disk, start + (EntryPos(files, k) + j)) == FromBig(w[0], w[1], w[2], w[3])
  {
    hide Image, Entry;
    var p, e := EntryPos(files, k) + j, Entry(files, k);
    EntryBytes(files, k, j);
    EntryBytes(files, k, j + 1);
    EntryBytes(files, k, j + 2);
    EntryBytes(files, k, j + 3);
    assert w[0] == e[j] && w[1] == e[j + 1] && w[2] == e[j + 2] && w[3] == e[j + 3];
    assert ByteAt(disk, start + p) == Image(files)[p] && ByteAt(disk, start + (p + 1)) == Image(files)[p + 1];
    assert ByteAt(disk, start + (p + 2)) == Image(files)[p + 2] && ByteAt(disk, start + (p + 3)) == Image(files)[p + 3];
  }

  lemma {:induction false} KnownNames(files: seq<File>, start: nat, k: nat)
    requires k <= |files|
    ensures forall n :: n in StartsOf(files, start, k) <==> exists i :: 0 <= i < k && files[i].name == n
    ensures forall n :: n in SizesOf(files, k) <==> exists i :: 0 <= i < k && files[i].name == n
    decreases k
  {
    if k > 0 {
      KnownNames(files, start, k - 1);
    }
  }

  lemma NameTaken(files: seq<File>, k: nat)
    requires k < |files| && DistinctNames(files, k)
    ensures DistinctNames(files, k + 1) <==> !(exists i :: 0 <= i < k && files[i].name == files[k].name)
    ensures (exists i :: 0 <= i < k && files[i].name == files[k].name) ==> !DistinctNames(files, |files|)
  {
  }

  /** The tables lead to every file. */
  lemma {:induction false} TablesLead(files: seq<File>, start: nat, n: nat, k: nat)
    requires k < n <= |files| && DistinctNames(files, n)
    ensures files[k].name in StartsOf(files, start, n) && StartsOf(files, start, n)[files[k].name] == start + DataPos(files, k)
    ensures files[k].name in SizesOf(files, n) && SizesOf(files, n)[files[k].name] == |files[k].data|
    decreases n
  {
    if k < n - 1 {
      TablesLead(files, start, n - 1, k);
    }
  }

  /** And there the bytes of the file are: a descriptor opened from the tables reads the data, whatever
      other descriptors do meanwhile, since the disk does not change. */
  lemma FileBytes(files: seq<File>, disk: seq<Byte>, start: nat, k: nat, i: nat)
    requires OnDisk(files, disk, start) && k < |files| && i < |files[k].data|
    ensures ByteAt(disk, start + DataPos(files, k) + i) == files[k].data[i]
  {
    hide Image;
    DataAt(files, k);
    DataAt(files, k + 1);
    var p := DataPos(files, k);
    assert Image(files)[p..] == files[k].data + Data(files, k + 1);
    assert Image(files)[p + i] == Image(files)[p..][i] == files[k].data[i];
  }

  /** diskmount_open; None for the null pointer. */
  method Open(disk: seq<Byte>, starts: map<Str, int>, sizes: map<Str, int>, name: Str, ghost files: seq<File>, ghost start: nat)
    returns (fd: DiskFd?)
    requires DistinctNames(files, |files|) && starts == StartsOf(files, start, |files|) && sizes == SizesOf(files, |files|)
    ensures fd == null <==> forall k :: 0 <= k < |files| ==> files[k].name != name
    ensures fd != null ==>
              && fresh(fd) && fd.Valid() && fd.disk == disk && fd.pos == 0
              && exists k :: 0 <= k < |files| && files[k].name == name && fd.start == start + DataPos(files, k) && fd.size == |files[k].data|
  {
    KnownNames(files, start, |files|);
    if name !in starts {
      return null;
    }
    ghost var k :| 0 <= k < |files| && files[k].name == name;
    TablesLead(files, start, |files|, k);
    fd := new DiskFd(disk, starts[name], sizes[name]);
  }

  /** Reading an open file from the start to EOF gives back what was written into the image. */
  method ReadAll(fd: DiskFd, ghost files: seq<File>, ghost start: nat, ghost k: nat) returns (data: seq<Byte>)
    requires fd.Valid() && fd.pos == 0 && OnDisk(files, fd.disk, start)
    requires k < |files| && fd.start == start + DataPos(files, k) && fd.size == |files[k].data|
    modifies fd
    ensures data == files[k].data && fd.Valid()
  {
    hide OnDisk, Sector;
    data := [];
    while true
      invariant fd.Valid() && 0 <= fd.pos && data == files[k].data[..fd.pos]
      decreases fd.size - fd.pos
    {
      ghost var p := fd.pos;
      var c := fd.Read();
      if c == EOF {
        break;
      }
      FileBytes(files, fd.disk, start, k, p);
      data := data + [c];
    }
  }
}
