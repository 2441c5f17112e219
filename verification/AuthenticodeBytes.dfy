/** The hashed bytes of a PE image, by the positions that the PE format gives its fields. */
module AuthenticodeBytes {
  import opened Common
  import opened Authenticode

  /** The 32-bit little-endian number at `at`. */
  ghost function Number(f: File, at: int): int
    requires 0 <= at && at + 4 <= |f|
  {
    f[at] as int + 256 * (f[at + 1] as int) + 65536 * (f[at + 2] as int) + 16777216 * (f[at + 3] as int)
  }

  ghost predicate Bytes(f: File, at: int, bytes: File) {
    0 <= at && at + |bytes| <= |f| && f[at..at + |bytes|] == bytes
  }

  /** The position of the number of directories; `plus` tells PE32+ from PE32. */
  function CountAt(pe: int, plus: bool): int { if plus then pe + 132 else pe + 116 }

  /** The position of the entry of the certificate directory. */
  function EntryAt(pe: int, plus: bool): int { if plus then pe + 168 else pe + 152 }

  /** A file starting with "MZ" whose PE header is at `pe`, with an optional header of `size`
      bytes that lies in the file and reaches over its checksum field. */
  ghost predicate Image(f: File, pe: int, plus: bool, size: int) {
    && Bytes(f, 0, [0x4D, 0x5A])
    && 64 <= |f| && Number(f, 60) == pe
    && Bytes(f, pe, [0x50, 0x45, 0, 0])
    && Bytes(f, pe + 24, if plus then [0x0B, 0x02] else [0x0B, 0x01])
    && f[pe + 20] as int + 256 * (f[pe + 21] as int) == size
    && 68 <= size && pe + 24 + size <= |f|
    && CountAt(pe, plus) + 4 <= |f|
  }

  /** There are at least five directories, and the optional header has room for the fifth. */
  ghost predicate HasEntry(f: File, pe: int, plus: bool, size: int)
    requires Image(f, pe, plus, size)
  {
    5 <= Number(f, CountAt(pe, plus)) && EntryAt(pe, plus) + 8 <= pe + 24 + size
  }

  /** The entry names a table that follows it and lies in the file. */
  ghost predicate NamesTable(f: File, entry: int)
    requires 0 <= entry && entry + 8 <= |f|
  {
    var start, size := Number(f, entry), Number(f, entry + 4);
    size != 0 && entry + 8 <= start && start + size <= |f|
  }

  lemma {:induction false} NumberIs(f: File, at: int)
    requires 0 <= at && at + 4 <= |f|
    ensures U32(f, at) == Some(Number(f, at)) && 0 <= Number(f, at)
  {
  }

  lemma {:induction false} PairIs(f: File, at: int, low: Byte, high: Byte)
    ensures U16(f, at) == Some(low as int + 256 * (high as int)) <==> Bytes(f, at, [low, high])
  {
    if 0 <= at && at + 2 <= |f| {
      var two := f[at..at + 2];
      assert two[0] == f[at] && two[1] == f[at + 1];
    }
  }

  lemma {:induction false} SignatureIs(f: File, pe: int)
    ensures U32(f, pe) == Some(0x4550) <==> Bytes(f, pe, [0x50, 0x45, 0, 0])
  {
    if 0 <= pe && pe + 4 <= |f| {
      var four := f[pe..pe + 4];
      assert four[0] == f[pe] && four[1] == f[pe + 1] && four[2] == f[pe + 2] && four[3] == f[pe + 3];
    }
  }

  /** What the hash leaves out of an image. */
  ghost function ImageLayout(f: File, pe: int, plus: bool, size: int): Layout
    requires Image(f, pe, plus, size)
  {
    var d := EntryAt(pe, plus);
    if !HasEntry(f, pe, plus, size) then Layout(pe + 88, None, None)
    else if !NamesTable(f, d) then Layout(pe + 88, Some(d), None)
    else Layout(pe + 88, Some(d), Some(Range(Number(f, d), Number(f, d) + Number(f, d + 4))))
  }

  lemma {:induction false} ImageHeaders(f: File, pe: int, plus: bool, size: int)
    requires Image(f, pe, plus, size)
    ensures ParseHeaders(f) == Some(Headers(pe + 24 + size, pe + 88, CountAt(pe, plus) + 4, Number(f, CountAt(pe, plus))))
  {
    PairIs(f, 0, 0x4D, 0x5A);
    NumberIs(f, 60);
    SignatureIs(f, pe);
    PairIs(f, pe + 24, 0x0B, if plus then 0x02 else 0x01);
    NumberIs(f, CountAt(pe, plus));
  }

  lemma {:induction false} TableIs(f: File, entry: int)
    requires 0 <= entry && entry + 8 <= |f|
    ensures CertTable(f, entry) ==
            if NamesTable(f, entry) then Some(Range(Number(f, entry), Number(f, entry) + Number(f, entry + 4))) else None
  {
    NumberIs(f, entry);
    NumberIs(f, entry + 4);
  }

  /** The layout that given headers lead to. */
  ghost function LayoutFrom(f: File, h: Headers): Layout {
    var entry := CertDir(h);
    Layout(h.checksumOff, entry, if entry.None? then None else CertTable(f, entry.value))
  }

  lemma {:induction false} ImageLayoutFrom(f: File, pe: int, plus: bool, size: int, h: Headers)
    requires Image(f, pe, plus, size)
    requires h == Headers(pe + 24 + size, pe + 88, CountAt(pe, plus) + 4, Number(f, CountAt(pe, plus)))
    ensures LayoutFrom(f, h) == ImageLayout(f, pe, plus, size)
  {
    if HasEntry(f, pe, plus, size) {
      TableIs(f, EntryAt(pe, plus));
    }
  }

  lemma {:induction false} ParsedLayout(f: File, h: Headers)
    requires ParseHeaders(f) == Some(h)
    ensures LayoutOf(f) == Some(LayoutFrom(f, h))
  {
  }

  /** Images are accepted, and read as the format places their fields. */
  lemma {:induction false} ImageIsParsed(f: File, pe: int, plus: bool, size: int)
    requires Image(f, pe, plus, size)
    ensures LayoutOf(f) == Some(ImageLayout(f, pe, plus, size))
  {
    var h := Headers(pe + 24 + size, pe + 88, CountAt(pe, plus) + 4, Number(f, CountAt(pe, plus)));
    ImageHeaders(f, pe, plus, size);
    ParsedLayout(f, h);
    ImageLayoutFrom(f, pe, plus, size, h);
  }

  lemma {:induction false} ParsedIsImage(f: File) returns (pe: int, plus: bool, size: int)
    requires LayoutOf(f).Some?
    ensures Image(f, pe, plus, size)
  {
    PairIs(f, 0, 0x4D, 0x5A);
    pe := U32(f, 60).value;
    plus := U16(f, pe + 24) == Some(0x20b);
    size := U16(f, pe + 20).value;
    NumberIs(f, 60);
    SignatureIs(f, pe);
    PairIs(f, pe + 24, 0x0B, if plus then 0x02 else 0x01);
  }

  lemma {:induction false} KeptBefore(f: File, l: Layout, n: nat)
    requires Placed(|f|, l) && l.checksum + 4 <= n <= |f| && (l.entry.Some? ==> n <= l.entry.value)
    ensures Kept(f, l, n) == f[..l.checksum] + f[l.checksum + 4..n]
  {
    KeptAll(f, l, 0, l.checksum);
    KeptNone(f, l, l.checksum, l.checksum + 4);
    KeptAll(f, l, l.checksum + 4, n);
  }

  ghost function Slices(f: File, l: Layout): File
    requires Placed(|f|, l)
  {
    if l.entry.None? then f[..l.checksum] + f[l.checksum + 4..|f|]
    else if l.table.None? then f[..l.checksum] + f[l.checksum + 4..l.entry.value] + f[l.entry.value + 8..|f|]
    else
      f[..l.checksum] + f[l.checksum + 4..l.entry.value] +
      f[l.entry.value + 8..l.table.value.start] + f[l.table.value.end..]
  }

  lemma {:induction false} KeptAfter(f: File, l: Layout, n: nat)
    requires Placed(|f|, l) && l.entry.Some? && l.entry.value + 8 <= n <= |f| && (l.table.Some? ==> n <= l.table.value.start)
    ensures Kept(f, l, n) == f[..l.checksum] + f[l.checksum + 4..l.entry.value] + f[l.entry.value + 8..n]
  {
    var d := l.entry.value;
    KeptBefore(f, l, d);
    KeptNone(f, l, d, d + 8);
    KeptAll(f, l, d + 8, n);
  }

  lemma {:induction false} KeptSlices(f: File, l: Layout)
    requires Placed(|f|, l)
    ensures Kept(f, l, |f|) == Slices(f, l)
  {
    if l.entry.None? {
      KeptBefore(f, l, |f|);
    } else if l.table.None? {
      KeptAfter(f, l, |f|);
    } else {
      KeptAfter(f, l, l.table.value.start);
      TableIsSkipped(f, l);
    }
  }

  lemma {:induction false} HashIsSlices(f: File, pe: int, plus: bool, size: int)
    requires Image(f, pe, plus, size)
    ensures Placed(|f|, ImageLayout(f, pe, plus, size))
    ensures HashedBytes(f) == Slices(f, ImageLayout(f, pe, plus, size))
  {
    var l := ImageLayout(f, pe, plus, size);
    ImageIsParsed(f, pe, plus, size);
    HeaderBounds(f);
    KeptSlices(f, l);
  }

  lemma {:induction false} ImageSlices(f: File, pe: int, plus: bool, size: int, kept: File)
    requires Image(f, pe, plus, size) && Placed(|f|, ImageLayout(f, pe, plus, size))
    requires kept == Slices(f, ImageLayout(f, pe, plus, size))
    ensures !HasEntry(f, pe, plus, size) ==> kept == f[..pe + 88] + f[pe + 92..|f|]
    ensures HasEntry(f, pe, plus, size) ==>
              var d := if plus then pe + 168 else pe + 152;
              && (!NamesTable(f, d) ==> kept == f[..pe + 88] + f[pe + 92..d] + f[d + 8..|f|])
              && (NamesTable(f, d) ==>
                    var start, end := Number(f, d), Number(f, d) + Number(f, d + 4);
                    kept == f[..pe + 88] + f[pe + 92..d] + f[d + 8..start] + f[end..])
  {
  }

  /** The hash of an image leaves out the four bytes of the checksum at `pe + 88`; if there is
      room for the fifth directory, its eight bytes at `pe + 152` (PE32) or `pe + 168` (PE32+);
      and the table those bytes name, if it lies behind them and in the file. It takes in every
      other byte, in file order. */
  lemma {:induction false} ImageHash(f: File, pe: int, plus: bool, size: int)
    requires Image(f, pe, plus, size)
    ensures !HasEntry(f, pe, plus, size) ==> HashedBytes(f) == f[..pe + 88] + f[pe + 92..|f|]
    ensures HasEntry(f, pe, plus, size) ==>
              var d := if plus then pe + 168 else pe + 152;
              && (!NamesTable(f, d) ==> HashedBytes(f) == f[..pe + 88] + f[pe + 92..d] + f[d + 8..|f|])
              && (NamesTable(f, d) ==>
                    var start, end := Number(f, d), Number(f, d) + Number(f, d + 4);
                    HashedBytes(f) == f[..pe + 88] + f[pe + 92..d] + f[d + 8..start] + f[end..])
  {
    HashIsSlices(f, pe, plus, size);
    ImageSlices(f, pe, plus, size, HashedBytes(f));
  }

  /** Any other file is hashed whole. */
  lemma {:induction false} OthersAreWhole(f: File)
    requires forall pe, plus, size :: !Image(f, pe, plus, size)
    ensures HashedBytes(f) == f
  {
    if LayoutOf(f).Some? {
      var pe, plus, size := ParsedIsImage(f);
      assert false;
    }
  }

  /** Writing any four bytes at `pe + 88`, the position and the size of a new table into the
      directory entry, and the table behind the file leaves the hashed bytes of an image that
      named no table as they were. */
  lemma {:induction false} SigningByPosition(f: File, pe: int, plus: bool, size: int, checksum: File, entry: File, table: File)
    requires Image(f, pe, plus, size) && HasEntry(f, pe, plus, size) && !NamesTable(f, EntryAt(pe, plus))
    requires |checksum| == 4 && |entry| == 8 && Number(entry, 0) == |f| && Number(entry, 4) == |table|
    ensures var d := if plus then pe + 168 else pe + 152;
      HashedBytes(f[..pe + 88] + checksum + f[pe + 92..d] + entry + f[d + 8..] + table) == HashedBytes(f)
  {
    var d := if plus then pe + 168 else pe + 152;
    var g := f[..pe + 88] + checksum + f[pe + 92..d] + entry + f[d + 8..] + table;
    Signed(f, pe + 88, d, checksum, entry, table, g);
    SignedIsImage(f, pe, plus, size, g);
    SameNumber(g, d, entry, 0);
    SameNumber(g, d + 4, entry, 4);
    ImageHash(f, pe, plus, size);
    ImageHash(g, pe, plus, size);
    SignedSlices(f, pe + 88, d, table, g);
  }

  lemma {:induction false} SameNumber(f: File, at: int, g: File, from: int)
    requires 0 <= at && at + 4 <= |f| && 0 <= from && from + 4 <= |g|
    requires f[at..at + 4] == g[from..from + 4]
    ensures Number(f, at) == Number(g, from)
  {
    var x, y := f[at..at + 4], g[from..from + 4];
    assert x[0] == y[0] && x[1] == y[1] && x[2] == y[2] && x[3] == y[3];
  }

  lemma {:induction false} Signed(f: File, c: nat, d: nat, checksum: File, entry: File, table: File, g: File)
    requires c + 4 <= d && d + 8 <= |f| && |checksum| == 4 && |entry| == 8
    requires g == f[..c] + checksum + f[c + 4..d] + entry + f[d + 8..] + table
    ensures |g| == |f| + |table|
    ensures forall p :: 0 <= p < |f| && !(c <= p < c + 4) && !(d <= p < d + 8) ==> g[p] == f[p]
    ensures g[d..d + 4] == entry[0..4] && g[d + 4..d + 8] == entry[4..8] && g[|f|..] == table
  {
  }

  lemma {:induction false} SignedSlices(f: File, c: nat, d: nat, table: File, g: File)
    requires c + 4 <= d && d + 8 <= |f| && |g| == |f| + |table|
    requires forall p :: 0 <= p < |f| && !(c <= p < c + 4) && !(d <= p < d + 8) ==> g[p] == f[p]
    ensures g[..c] + g[c + 4..d] + g[d + 8..|f|] + g[|f| + |table|..] == f[..c] + f[c + 4..d] + f[d + 8..|f|]
    ensures table == [] ==> g[..c] + g[c + 4..d] + g[d + 8..|g|] == f[..c] + f[c + 4..d] + f[d + 8..|f|]
  {
    assert g[..c] == f[..c] && g[c + 4..d] == f[c + 4..d] && g[d + 8..|f|] == f[d + 8..|f|];
  }

  /** An image stays one if its checksum and its certificate entry are overwritten. */
  lemma {:induction false} SignedIsImage(f: File, pe: int, plus: bool, size: int, g: File)
    requires Image(f, pe, plus, size) && HasEntry(f, pe, plus, size) && |f| <= |g|
    requires var d := EntryAt(pe, plus);
      forall p :: 0 <= p < |f| && !(pe + 88 <= p < pe + 92) && !(d <= p < d + 8) ==> g[p] == f[p]
    ensures Image(g, pe, plus, size) && HasEntry(g, pe, plus, size)
  {
    NumberIs(f, 60);
    assert g[0..2] == f[0..2] && g[pe..pe + 4] == f[pe..pe + 4] && g[pe + 24..pe + 26] == f[pe + 24..pe + 26];
    SameNumber(g, 60, f, 60);
    SameNumber(g, CountAt(pe, plus), f, CountAt(pe, plus));
  }
}
