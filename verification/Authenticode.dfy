/** Which bytes of a PE file the Authenticode hash covers. */
module Authenticode {
  import opened Common

  type File = seq<Byte>

  /** The half-open byte range [start, end). */
  datatype Range = Range(start: int, end: int)

  function U16(f: File, off: int): Option<int> {
    if off < 0 || off + 2 > |f| then None else Some(f[off] as int + 0x100 * (f[off + 1] as int))
  }

  function U32(f: File, off: int): (r: Option<int>)
    ensures r.Some? ==> 0 <= r.value < 0x1_0000_0000
  {
    if off < 0 || off + 4 > |f| then None
    else Some(f[off] as int + 0x100 * (f[off + 1] as int) + 0x1_0000 * (f[off + 2] as int) + 0x100_0000 * (f[off + 3] as int))
  }

  const CERT_DIR_INDEX := 4

  /** What the headers say about the layout. */
  datatype Headers = Headers(optEnd: int, checksumOff: int, dirsOff: int, numDirs: int)

  function ParseHeaders(f: File): Option<Headers> {
    var mz, pe := U16(f, 0), U32(f, 0x3C);
    if mz != Some(0x5A4D) || pe.None? || U32(f, pe.value) != Some(0x0000_4550) then None
    else
      var optSize, optOff := U16(f, pe.value + 4 + 16), pe.value + 4 + 20;
      var magic := U16(f, optOff);
      if optSize.None? || magic.None? || (magic.value != 0x10b && magic.value != 0x20b) then None
      else
        var dirsOff := if magic.value == 0x10b then optOff + 96 else optOff + 112;
        var optEnd, checksumOff := optOff + optSize.value, optOff + 64;
        var numDirs := U32(f, dirsOff - 4);
        if optEnd > |f| || checksumOff + 4 > optEnd || numDirs.None? then None
        else Some(Headers(optEnd, checksumOff, dirsOff, numDirs.value))
  }

  /** The certificate directory entry, when the headers have room for one. */
  function CertDir(h: Headers): Option<int> {
    var off := h.dirsOff + CERT_DIR_INDEX * 8;
    if h.numDirs <= CERT_DIR_INDEX || off + 8 > h.optEnd then None else Some(off)
  }

  /** The certificate table, when the entry names bytes after itself and inside the file. */
  function CertTable(f: File, entry: int): Option<Range> {
    var off, len := U32(f, entry), U32(f, entry + 4);
    if off.None? || len.None? || len.value == 0 || off.value < entry + 8 || off.value + len.value > |f| then None
    else Some(Range(off.value, off.value + len.value))
  }

  /** The three parts that the hash leaves out. */
  datatype Layout = Layout(checksum: int, entry: Option<int>, table: Option<Range>)

  function LayoutOf(f: File): Option<Layout> {
    var h := ParseHeaders(f);
    if h.None? then None
    else
      var entry := CertDir(h.value);
      Some(Layout(h.value.checksumOff, entry, if entry.None? then None else CertTable(f, entry.value)))
  }

  function RangesFor(size: nat, l: Layout): seq<Range> {
    if l.entry.None? then [Range(0, l.checksum), Range(l.checksum + 4, size)]
    else
      var d := l.entry.value;
      var head := [Range(0, l.checksum), Range(l.checksum + 4, d)];
      if l.table.None? then head + [Range(d + 8, size)]
      else if l.table.value.end < size
      then head + [Range(d + 8, l.table.value.start)] + [Range(l.table.value.end, size)]
      else head + [Range(d + 8, l.table.value.start)]
  }

  function PeHashRanges(f: File): Option<seq<Range>> {
    var l := LayoutOf(f);
    if l.None? then None else Some(RangesFor(|f|, l.value))
  }

  // ---- What is left out ------------------------------------------------------------------

  predicate Within(r: Range, p: int) { r.start <= p < r.end }

  /** Position `p` belongs to the checksum, the directory entry or the table it names. */
  predicate Omitted(l: Layout, p: int) {
    || l.checksum <= p < l.checksum + 4
    || (l.entry.Some? && l.entry.value <= p < l.entry.value + 8)
    || (l.table.Some? && Within(l.table.value, p))
  }

  /** The parts lie in this order inside the file. */
  predicate Placed(size: nat, l: Layout) {
    && 0 <= l.checksum && l.checksum + 4 <= size
    && (l.entry.Some? ==> l.checksum + 4 <= l.entry.value && l.entry.value + 8 <= size)
    && (l.table.Some? ==> l.entry.Some? && l.entry.value + 8 <= l.table.value.start <= l.table.value.end <= size)
  }

  predicate InFile(size: nat, rs: seq<Range>) {
    forall i :: 0 <= i < |rs| ==> 0 <= rs[i].start <= rs[i].end <= size
  }

  /** Every header field that is read lies before the directory entry and outside the checksum. */
  lemma {:induction false} HeaderBounds(f: File)
    requires ParseHeaders(f).Some?
    ensures var h := ParseHeaders(f).value;
      && 0x40 <= h.checksumOff && h.checksumOff + 4 <= h.dirsOff - 4
      && h.dirsOff <= |f| && h.checksumOff + 4 <= h.optEnd <= |f|
      && LayoutOf(f).Some? && Placed(|f|, LayoutOf(f).value)
      && (LayoutOf(f).value.entry.Some? ==> h.dirsOff <= LayoutOf(f).value.entry.value)
  {
  }

  /** The ranges are in order, disjoint and inside the file, and cover exactly the bytes
      that are not omitted. */
  lemma {:induction false} RangesAreExact(f: File)
    requires LayoutOf(f).Some?
    ensures PeHashRanges(f).Some?
    ensures var rs, l := PeHashRanges(f).value, LayoutOf(f).value;
      && InFile(|f|, rs)
      && (forall i :: 0 < i < |rs| ==> rs[i - 1].end <= rs[i].start)
      && (forall p :: 0 <= p < |f| ==> (!Omitted(l, p) <==> exists i :: 0 <= i < |rs| && Within(rs[i], p)))
  {
    HeaderBounds(f);
    var l := LayoutOf(f).value;
    forall p | 0 <= p < |f|
      ensures !Omitted(l, p) <==> exists i :: 0 <= i < |RangesFor(|f|, l)| && Within(RangesFor(|f|, l)[i], p)
    {
      RangeOf(|f|, l, p);
    }
  }

  lemma {:induction false} RangeOf(size: nat, l: Layout, p: int)
    requires Placed(size, l) && 0 <= p < size
    ensures var rs := RangesFor(size, l);
      !Omitted(l, p) <==> exists i :: 0 <= i < |rs| && Within(rs[i], p)
  {
    var rs := RangesFor(size, l);
    if !Omitted(l, p) {
      if p < l.checksum {
        assert Within(rs[0], p);
      } else if l.entry.None? || p < l.entry.value {
        assert Within(rs[1], p);
      } else if l.table.None? || p < l.table.value.start {
        assert Within(rs[2], p);
      } else {
        assert Within(rs[3], p);
      }
    }
  }

  // ---- The hashed bytes --------------------------------------------------------------------

  /** The bytes of the ranges, one after the other. */
  function Covered(f: File, rs: seq<Range>): File
    requires InFile(|f|, rs)
  {
    if rs == [] then [] else Covered(f, rs[..|rs| - 1]) + f[rs[|rs| - 1].start..rs[|rs| - 1].end]
  }

  /** The bytes below `n` that are not omitted, in file order. */
  function Kept(f: File, l: Layout, n: nat): File
    requires n <= |f|
  {
    if n == 0 then []
    else if Omitted(l, n - 1) then Kept(f, l, n - 1)
    else Kept(f, l, n - 1) + [f[n - 1]]
  }

  /** What the hash is computed over; a file that is not a PE image is hashed whole. */
  function HashedBytes(f: File): File {
    var l := LayoutOf(f);
    if l.None? then f else Kept(f, l.value, |f|)
  }

  lemma {:induction false} KeptAll(f: File, l: Layout, a: nat, b: nat)
    requires a <= b <= |f| && forall p :: a <= p < b ==> !Omitted(l, p)
    ensures Kept(f, l, b) == Kept(f, l, a) + f[a..b]
    decreases b - a
  {
    if a < b {
      KeptAll(f, l, a, b - 1);
      assert f[a..b] == f[a..b - 1] + [f[b - 1]];
    }
  }

  lemma {:induction false} KeptNone(f: File, l: Layout, a: nat, b: nat)
    requires a <= b <= |f| && forall p :: a <= p < b ==> Omitted(l, p)
    ensures Kept(f, l, b) == Kept(f, l, a)
    decreases b - a
  {
    if a < b {
      KeptNone(f, l, a, b - 1);
    }
  }

  lemma {:induction false} CoveredSnoc(f: File, rs: seq<Range>, r: Range)
    requires InFile(|f|, rs) && 0 <= r.start <= r.end <= |f|
    ensures InFile(|f|, rs + [r]) && Covered(f, rs + [r]) == Covered(f, rs) + f[r.start..r.end]
  {
    assert (rs + [r])[..|rs|] == rs;
  }

  lemma {:induction false} CoveredOne(f: File, r: Range)
    requires 0 <= r.start <= r.end <= |f|
    ensures InFile(|f|, [r]) && Covered(f, [r]) == f[r.start..r.end]
  {
    CoveredSnoc(f, [], r);
    assert [] + [r] == [r];
  }

  lemma {:induction false} CoveredTwo(f: File, a: Range, b: Range)
    requires 0 <= a.start <= a.end <= |f| && 0 <= b.start <= b.end <= |f|
    ensures InFile(|f|, [a, b]) && Covered(f, [a, b]) == f[a.start..a.end] + f[b.start..b.end]
  {
    CoveredOne(f, a);
    CoveredSnoc(f, [a], b);
    assert [a] + [b] == [a, b];
  }

  /** Up to the directory entry, only the checksum is left out. */
  lemma {:induction false} HeadIsKept(f: File, l: Layout, n: nat)
    requires Placed(|f|, l) && l.checksum + 4 <= n <= |f| && (l.entry.Some? ==> n <= l.entry.value)
    ensures var head := [Range(0, l.checksum), Range(l.checksum + 4, n)];
      InFile(|f|, head) && Covered(f, head) == Kept(f, l, n)
  {
    KeptAll(f, l, 0, l.checksum);
    KeptNone(f, l, l.checksum, l.checksum + 4);
    KeptAll(f, l, l.checksum + 4, n);
    CoveredTwo(f, Range(0, l.checksum), Range(l.checksum + 4, n));
  }

  /** Between the entry and `n`, where no table begins, everything is kept. */
  lemma {:induction false} MiddleIsKept(f: File, l: Layout, n: nat)
    requires Placed(|f|, l) && l.entry.Some? && l.entry.value + 8 <= n <= |f|
    requires l.table.Some? ==> n <= l.table.value.start
    ensures var rs := [Range(0, l.checksum), Range(l.checksum + 4, l.entry.value)] + [Range(l.entry.value + 8, n)];
      InFile(|f|, rs) && Covered(f, rs) == Kept(f, l, n)
  {
    var d := l.entry.value;
    HeadIsKept(f, l, d);
    KeptNone(f, l, d, d + 8);
    KeptAll(f, l, d + 8, n);
    CoveredSnoc(f, [Range(0, l.checksum), Range(l.checksum + 4, d)], Range(d + 8, n));
  }

  lemma {:induction false} TableIsSkipped(f: File, l: Layout)
    requires Placed(|f|, l) && l.table.Some?
    ensures Kept(f, l, |f|) == Kept(f, l, l.table.value.start) + f[l.table.value.end..]
  {
    KeptNone(f, l, l.table.value.start, l.table.value.end);
    KeptAll(f, l, l.table.value.end, |f|);
  }

  /** Ranges that cover what is kept before the table, with what follows the table. */
  lemma {:induction false} TailIsKept(f: File, l: Layout, rs: seq<Range>)
    requires Placed(|f|, l) && l.table.Some? && InFile(|f|, rs) && Covered(f, rs) == Kept(f, l, l.table.value.start)
    ensures var tail := Range(l.table.value.end, |f|);
      && InFile(|f|, rs + [tail]) && Covered(f, rs + [tail]) == Kept(f, l, |f|)
      && (l.table.value.end == |f| ==> Covered(f, rs) == Kept(f, l, |f|))
  {
    TableIsSkipped(f, l);
    CoveredSnoc(f, rs, Range(l.table.value.end, |f|));
  }

  lemma {:induction false} SignedRangesAreKept(f: File, l: Layout)
    requires Placed(|f|, l) && l.table.Some?
    ensures InFile(|f|, RangesFor(|f|, l)) && Covered(f, RangesFor(|f|, l)) == Kept(f, l, |f|)
  {
    var d, n := l.entry.value, l.table.value.start;
    MiddleIsKept(f, l, n);
    TailIsKept(f, l, [Range(0, l.checksum), Range(l.checksum + 4, d)] + [Range(d + 8, n)]);
  }

  /** Feeding the ranges to the hash feeds exactly the bytes that are not omitted. */
  lemma {:induction false} RangesAreKept(f: File, l: Layout)
    requires Placed(|f|, l)
    ensures InFile(|f|, RangesFor(|f|, l)) && Covered(f, RangesFor(|f|, l)) == Kept(f, l, |f|)
  {
    if l.entry.None? {
      HeadIsKept(f, l, |f|);
    } else if l.table.None? {
      MiddleIsKept(f, l, |f|);
    } else {
      SignedRangesAreKept(f, l);
    }
  }

  /** Streams the given ranges into the hash. */
  method Feed(f: File, rs: seq<Range>) returns (fed: File)
    requires InFile(|f|, rs)
    ensures fed == Covered(f, rs)
  {
    fed := [];
    for k := 0 to |rs|
      invariant fed == Covered(f, rs[..k])
    {
      assert rs[..k + 1] == rs[..k] + [rs[k]];
      CoveredSnoc(f, rs[..k], rs[k]);
      fed := fed + f[rs[k].start..rs[k].end];
    }
    assert rs[..|rs|] == rs;
  }

  /** What is fed to the hash is exactly what is not omitted. */
  method AuthenticodeHash(f: File) returns (fed: File)
    ensures fed == HashedBytes(f)
  {
    var ranges := PeHashRanges(f);
    if ranges.Some? {
      HeaderBounds(f);
      RangesAreKept(f, LayoutOf(f).value);
      fed := Feed(f, ranges.value);
    } else {
      CoveredOne(f, Range(0, |f|));
      fed := Feed(f, [Range(0, |f|)]);
    }
  }

  /** Two files that agree wherever nothing is omitted, and only such files, keep the same
      bytes up to `n`. */
  lemma {:induction false} KeptDetermines(f: File, g: File, l: Layout, m: Layout, n: nat)
    requires n <= |f| && n <= |g| && forall p :: 0 <= p < n ==> (Omitted(l, p) <==> Omitted(m, p))
    ensures |Kept(f, l, n)| == |Kept(g, m, n)|
    ensures Kept(f, l, n) == Kept(g, m, n) <==> forall p :: 0 <= p < n && !Omitted(l, p) ==> f[p] == g[p]
  {
    if n > 0 {
      KeptDetermines(f, g, l, m, n - 1);
      if !Omitted(l, n - 1) {
        var x, y := Kept(f, l, n - 1), Kept(g, m, n - 1);
        assert (x + [f[n - 1]])[..|x|] == x && (y + [g[n - 1]])[..|y|] == y;
        assert (x + [f[n - 1]])[|x|] == f[n - 1] && (y + [g[n - 1]])[|y|] == g[n - 1];
      }
    }
  }

  /** The hash sees every other byte: two images of one layout and size hash the same bytes
      if and only if they differ in omitted positions only. */
  lemma {:induction false} HashSeesTheRest(f: File, g: File)
    requires LayoutOf(f).Some? && LayoutOf(g) == LayoutOf(f) && |f| == |g|
    ensures HashedBytes(f) == HashedBytes(g) <==>
            forall p :: 0 <= p < |f| && !Omitted(LayoutOf(f).value, p) ==> f[p] == g[p]
  {
    KeptDetermines(f, g, LayoutOf(f).value, LayoutOf(g).value, |f|);
  }

  // ---- Signing -----------------------------------------------------------------------------

  function Le32(n: int): File
    requires 0 <= n < 0x1_0000_0000
  {
    [n % 0x100, n / 0x100 % 0x100, n / 0x1_0000 % 0x100, n / 0x100_0000]
  }

  lemma {:induction false} Le32RoundTrip(n: int)
    requires 0 <= n < 0x1_0000_0000
    ensures U32(Le32(n), 0) == Some(n)
  {
    var a, b := n / 0x100, n / 0x1_0000;
    assert b == a / 0x100 && n / 0x100_0000 == b / 0x100;
  }

  /** Signing sets the checksum, fills in the directory entry and appends the table. */
  function Sign(f: File, l: Layout, checksum: File, table: File): File
    requires Placed(|f|, l) && l.entry.Some? && |checksum| == 4
    requires |f| < 0x1_0000_0000 && |table| < 0x1_0000_0000
  {
    var c, d := l.checksum, l.entry.value;
    f[..c] + checksum + f[c + 4..d] + Le32(|f|) + Le32(|table|) + f[d + 8..] + table
  }

  lemma {:induction false} SignedBytes(f: File, l: Layout, checksum: File, table: File)
    requires Placed(|f|, l) && l.entry.Some? && |checksum| == 4
    requires |f| < 0x1_0000_0000 && |table| < 0x1_0000_0000
    ensures var g, c, d := Sign(f, l, checksum, table), l.checksum, l.entry.value;
      && |g| == |f| + |table|
      && (forall p :: 0 <= p < |f| && !(c <= p < c + 4) && !(d <= p < d + 8) ==> g[p] == f[p])
      && g[d..d + 4] == Le32(|f|) && g[d + 4..d + 8] == Le32(|table|)
  {
  }

  /** The headers are read from bytes that signing leaves alone. */
  lemma {:induction false} HeadersUnchanged(f: File, g: File)
    requires ParseHeaders(f).Some? && ParseHeaders(f).value.optEnd <= |g| && ParseHeaders(f).value.dirsOff <= |g|
    requires var h := ParseHeaders(f).value;
      forall p :: 0 <= p < h.dirsOff && !(h.checksumOff <= p < h.checksumOff + 4) && p < |f| ==> g[p] == f[p]
    ensures ParseHeaders(g) == ParseHeaders(f)
  {
    HeaderBounds(f);
    var pe := U32(f, 0x3C).value;
    assert U16(g, 0) == U16(f, 0);
    assert U32(g, 0x3C) == U32(f, 0x3C);
    assert U32(g, pe) == U32(f, pe);
    assert U16(g, pe + 20) == U16(f, pe + 20);
    assert U16(g, pe + 24) == U16(f, pe + 24);
    var h := ParseHeaders(f).value;
    assert U32(g, h.dirsOff - 4) == U32(f, h.dirsOff - 4);
  }

  lemma {:induction false} U32Slice(f: File, off: nat)
    requires off + 4 <= |f|
    ensures U32(f, off) == U32(f[off..off + 4], 0)
  {
  }

  /** The entry written by signing names the appended table, unless the table is empty. */
  lemma {:induction false} SignedLayout(f: File, l: Layout, checksum: File, table: File)
    requires LayoutOf(f) == Some(l) && Placed(|f|, l) && l.entry.Some? && |checksum| == 4
    requires |f| < 0x1_0000_0000 && |table| < 0x1_0000_0000
    ensures var g := Sign(f, l, checksum, table);
      LayoutOf(g) == Some(l.(table := if table == [] then None else Some(Range(|f|, |g|))))
  {
    var g, d := Sign(f, l, checksum, table), l.entry.value;
    SignedBytes(f, l, checksum, table);
    HeaderBounds(f);
    HeadersUnchanged(f, g);
    SignedEntry(f, l, checksum, table);
    assert LayoutOf(g) == Some(Layout(l.checksum, l.entry, CertTable(g, d)));
  }

  lemma {:induction false} SignedEntry(f: File, l: Layout, checksum: File, table: File)
    requires Placed(|f|, l) && l.entry.Some? && |checksum| == 4
    requires |f| < 0x1_0000_0000 && |table| < 0x1_0000_0000
    ensures var g := Sign(f, l, checksum, table);
      CertTable(g, l.entry.value) == if table == [] then None else Some(Range(|f|, |g|))
  {
    var g, d := Sign(f, l, checksum, table), l.entry.value;
    SignedBytes(f, l, checksum, table);
    U32Slice(g, d);
    U32Slice(g, d + 4);
    Le32RoundTrip(|f|);
    Le32RoundTrip(|table|);
    assert U32(g, d) == Some(|f|) && U32(g, d + 4) == Some(|table|);
  }

  /** Whether and however an unsigned image is signed, the hashed bytes stay the same. */
  lemma {:induction false} SigningInvariance(f: File, l: Layout, checksum: File, table: File)
    requires LayoutOf(f) == Some(l) && l.entry.Some? && l.table.None?
    requires |checksum| == 4 && |f| < 0x1_0000_0000 && |table| < 0x1_0000_0000
    ensures Placed(|f|, l) && HashedBytes(Sign(f, l, checksum, table)) == HashedBytes(f)
  {
    HeaderBounds(f);
    var g := Sign(f, l, checksum, table);
    SignedBytes(f, l, checksum, table);
    SignedLayout(f, l, checksum, table);
    SignedKeepsBytes(f, l, g, LayoutOf(g).value);
  }

  lemma {:induction false} SignedKeepsBytes(f: File, l: Layout, g: File, m: Layout)
    requires Placed(|f|, l) && l.entry.Some? && l.table.None? && |f| <= |g|
    requires m == l.(table := if |g| == |f| then None else Some(Range(|f|, |g|)))
    requires forall p :: 0 <= p < |f| && !(l.checksum <= p < l.checksum + 4) && !(l.entry.value <= p < l.entry.value + 8) ==> g[p] == f[p]
    ensures Kept(g, m, |g|) == Kept(f, l, |f|)
  {
    KeptDetermines(f, g, l, m, |f|);
    KeptNone(g, m, |f|, |g|);
  }

  /** The image without its signature: the entry is zeroed and the table, its last part, cut. */
  function Strip(f: File, l: Layout): File
    requires Placed(|f|, l) && l.table.Some?
  {
    f[..l.entry.value] + [0, 0, 0, 0, 0, 0, 0, 0] + f[l.entry.value + 8..l.table.value.start]
  }

  /** Removing a signature whose table is the last part of the file leaves the hashed bytes
      unchanged, so a file and all its signed forms hash alike. */
  lemma {:induction false} StrippingInvariance(f: File, l: Layout)
    requires LayoutOf(f) == Some(l) && l.table.Some? && l.table.value.end == |f|
    requires ParseHeaders(f).value.optEnd <= l.table.value.start
    ensures Placed(|f|, l) && LayoutOf(Strip(f, l)) == Some(l.(table := None))
    ensures HashedBytes(Strip(f, l)) == HashedBytes(f)
  {
    HeaderBounds(f);
    var n, g := l.table.value.start, Strip(f, l);
    StripKeepsHeaders(f, l);
    var m := LayoutOf(g).value;
    KeptDetermines(f, g, l, m, n);
    KeptNone(f, l, n, |f|);
  }

  lemma {:induction false} StripKeepsHeaders(f: File, l: Layout)
    requires LayoutOf(f) == Some(l) && Placed(|f|, l) && l.table.Some? && ParseHeaders(f).value.optEnd <= l.table.value.start
    ensures var d, n, g := l.entry.value, l.table.value.start, Strip(f, l);
      && |g| == n && (forall p :: 0 <= p < n && !(d <= p < d + 8) ==> g[p] == f[p])
      && LayoutOf(g) == Some(l.(table := None))
  {
    HeaderBounds(f);
    var d, n, g := l.entry.value, l.table.value.start, Strip(f, l);
    assert |g| == n && forall p :: 0 <= p < n && !(d <= p < d + 8) ==> g[p] == f[p];
    HeadersUnchanged(f, g);
    assert g[d + 4] == 0 && g[d + 5] == 0 && g[d + 6] == 0 && g[d + 7] == 0;
    assert CertTable(g, d).None?;
  }

  /** Setting the checksum of any image leaves the hashed bytes unchanged. */
  lemma {:induction false} ChecksumInvariance(f: File, l: Layout, checksum: File)
    requires LayoutOf(f) == Some(l) && |checksum| == 4
    ensures Placed(|f|, l)
    ensures HashedBytes(f[..l.checksum] + checksum + f[l.checksum + 4..]) == HashedBytes(f)
  {
    HeaderBounds(f);
    var g := f[..l.checksum] + checksum + f[l.checksum + 4..];
    assert |g| == |f| && forall p :: 0 <= p < |f| && !(l.checksum <= p < l.checksum + 4) ==> g[p] == f[p];
    ChecksumKeepsLayout(f, l, g);
    HashSeesTheRest(f, g);
  }

  lemma {:induction false} ChecksumKeepsLayout(f: File, l: Layout, g: File)
    requires LayoutOf(f) == Some(l) && |g| == |f|
    requires forall p :: 0 <= p < |f| && !(l.checksum <= p < l.checksum + 4) ==> g[p] == f[p]
    ensures LayoutOf(g) == Some(l)
  {
    HeaderBounds(f);
    HeadersUnchanged(f, g);
    if l.entry.Some? {
      SameField(f, g, l.entry.value);
      SameField(f, g, l.entry.value + 4);
    }
  }

  lemma {:induction false} SameField(f: File, g: File, off: int)
    requires |g| == |f| && forall p :: off <= p < off + 4 && 0 <= p < |f| ==> g[p] == f[p]
    ensures U32(g, off) == U32(f, off)
  {
  }

}
