/** Finding the image appended to the executable: a matcher with one counter that never looks back,
    fed by reads of any size. */
module Scanner {
  type Byte = b: int | 0 <= b < 256

  // The bytes of what the image build writes; the source has them in upper case and folds them.
  const MAGIC: seq<Byte> := [95, 115, 113, 109, 97, 103, 105, 99, 95]
  const SIZE: nat := 9

  // ---------- one pass over the whole stream ----------

  datatype Progress = Searching(found: nat) | Hit(end: nat)

  function Feed(p: Progress, b: Byte, pos: nat): Progress
    requires p.Searching? ==> p.found < SIZE
  {
    if p.Hit? then p
    else if b != MAGIC[p.found] then Searching(0)
    else if p.found + 1 == SIZE then Hit(pos + 1)
    else Searching(p.found + 1)
  }

  function Scan(s: seq<Byte>): (p: Progress)
    ensures p.Searching? ==> p.found < SIZE && p.found <= |s|
    ensures p.Hit? ==> SIZE <= p.end <= |s|
  {
    if s == [] then Searching(0)
    else Feed(Scan(s[..|s| - 1]), s[|s| - 1], |s| - 1)
  }

  lemma Next(s: seq<Byte>, i: nat)
    requires i < |s|
    ensures Scan(s[..i + 1]) == Feed(Scan(s[..i]), s[i], i)
  {
    assert s[..i + 1][..i] == s[..i];
  }

  lemma NextByte(s: seq<Byte>, i: nat, found: nat)
    requires i < |s| && found < SIZE && Scan(s[..i]) == Searching(found)
    ensures Scan(s[..i + 1]) ==
            if s[i] != MAGIC[found] then Searching(0)
            else if found + 1 == SIZE then Hit(i + 1) else Searching(found + 1)
  {
    Next(s, i);
  }

  lemma {:induction false} HitStays(s: seq<Byte>, n: nat)
    requires n <= |s| && Scan(s[..n]).Hit?
    ensures Scan(s) == Scan(s[..n])
  {
    if n < |s| {
      assert s[..|s| - 1][..n] == s[..n];
      HitStays(s[..|s| - 1], n);
    } else {
      assert s[..n] == s;
    }
  }

  // ---------- the chunked procedure ----------

  datatype ReadStatus = Read | Eof | Broken

  datatype Outcome = Found(offset: nat) | NotFound | ReadFailed

  /** An open file; how much each read delivers, and whether it fails, is up to the system. */
  class ImageFile {
    const data: seq<Byte>
    var pos: nat
    ghost var failed: bool

    constructor (bytes: seq<Byte>)
      ensures data == bytes && pos == 0 && !failed
    {
      data, pos, failed := bytes, 0, false;
    }

    method ReadInto(buf: array<Byte>) returns (n: nat, status: ReadStatus)
      requires pos <= |data| && buf.Length > 0
      modifies this, buf
      ensures pos == old(pos) + n <= |data| && n <= buf.Length
      ensures buf[..n] == data[old(pos)..pos]
      ensures status.Read? ==> n > 0
      ensures status.Eof? ==> n == 0 && pos == |data|
      ensures failed == (old(failed) || status.Broken?)
    {
      var broken: bool := *;
      if broken {
        n, status, failed := 0, Broken, true;
      } else if pos == |data| {
        n, status := 0, Eof;
      } else {
        n :| 0 < n <= buf.Length && n <= |data| - pos;
        forall i | 0 <= i < n {
          buf[i] := data[pos + i];
        }
        pos, status := pos + n, Read;
      }
    }
  }

  /** inFile: the answer is that of one pass over the whole stream, however the reads cut it. */
  method InFile(f: ImageFile) returns (r: Outcome)
    requires f.pos == 0 && !f.failed
    modifies f
    ensures r.Found? ==> Scan(f.data) == Hit(r.offset)
    ensures r.NotFound? ==> Scan(f.data).Searching?
    ensures r.ReadFailed? <==> f.failed
  {
    var buf := new Byte[8192](_ => 0);
    var offset, found := 0, 0;
    while true
      invariant f.pos == offset <= |f.data| && !f.failed
      invariant found < SIZE && Scan(f.data[..offset]) == Searching(found)
      decreases |f.data| - offset
    {
      var n, status := f.ReadInto(buf);
      if status.Eof? {
        assert f.data[..offset] == f.data;
        return NotFound;
      } else if status.Broken? {
        return ReadFailed;
      }
      ghost var before := offset;
      for i := 0 to n
        invariant offset == before + i && f.pos == before + n <= |f.data| && !f.failed
        invariant buf[..n] == f.data[before..before + n]
        invariant found < SIZE && Scan(f.data[..offset]) == Searching(found)
      {
        assert buf[i] == buf[..n][i] == f.data[offset];
        NextByte(f.data, offset, found);
        if buf[i] == MAGIC[found] {
          found := found + 1;
          if found == SIZE {
            HitStays(f.data, offset + 1);
            return Found(offset + 1);
          }
        } else {
          found := 0;
        }
        offset := offset + 1;
      }
    }
  }

  // ---------- which occurrences it finds ----------

  predicate Occurs(s: seq<Byte>, end: nat) {
    SIZE <= end <= |s| && s[end - SIZE..end] == MAGIC
  }

  /** The stream ends in a proper, non-empty prefix of the magic, of length `k`. */
  predicate EndsIn(s: seq<Byte>, k: nat) {
    1 <= k < SIZE && k <= |s| && s[|s| - k..] == MAGIC[..k]
  }

  ghost predicate EndsClean(s: seq<Byte>) { forall k: nat :: !EndsIn(s, k) }

  /** Cutting a prefix of the magic off the end never leaves a clear position: so when such prefixes
      stand one behind the other, it is their number, odd or even, that decides. */
  ghost predicate Clear(s: seq<Byte>)
    decreases |s|
  {
    forall k: nat :: EndsIn(s, k) ==> !Clear(s[..|s| - k])
  }

  /** The counter only gets positive by one match more. */
  lemma FedOne(p: Progress, b: Byte, pos: nat, k: nat)
    requires (p.Searching? ==> p.found < SIZE) && k > 0 && Feed(p, b, pos) == Searching(k)
    ensures k < SIZE && b == MAGIC[k - 1] && p == Searching(k - 1)
  {
  }

  lemma CountedOne(s: seq<Byte>, k: nat)
    requires k > 0 && Scan(s) == Searching(k)
    ensures |s| > 0 && k < SIZE && s[|s| - 1] == MAGIC[k - 1] && Scan(s[..|s| - 1]) == Searching(k - 1)
  {
    FedOne(Scan(s[..|s| - 1]), s[|s| - 1], |s| - 1, k);
  }

  lemma EndGrows(s: seq<Byte>, magic: seq<Byte>, k: nat)
    requires 0 < k <= |magic| && k <= |s|
    ensures s[|s| - k..] == magic[..k] <==>
            s[|s| - 1] == magic[k - 1] && s[..|s| - 1][|s| - k..] == magic[..k - 1]
  {
    assert s[|s| - k..] == s[..|s| - 1][|s| - k..] + [s[|s| - 1]];
    assert magic[..k] == magic[..k - 1] + [magic[k - 1]];
  }

  /** A positive counter means: that many bytes ago the counter was zero, and they match. */
  lemma {:induction false} CounterMeans(s: seq<Byte>, k: nat)
    requires k > 0 && Scan(s) == Searching(k)
    ensures EndsIn(s, k) && Scan(s[..|s| - k]) == Searching(0)
  {
    CountedOne(s, k);
    var init := s[..|s| - 1];
    if k > 1 {
      CounterMeans(init, k - 1);
      assert init[..|init| - (k - 1)] == s[..|s| - k];
    }
    EndGrows(s, MAGIC, k);
  }

  /** From a zero counter, the next `k` bytes of the magic count up to `k`. */
  lemma {:induction false} CountsUp(s: seq<Byte>, k: nat)
    requires k <= SIZE && k <= |s| && s[|s| - k..] == MAGIC[..k]
    requires Scan(s[..|s| - k]) == Searching(0)
    ensures Scan(s) == if k == SIZE then Hit(|s|) else Searching(k)
  {
    if k == 0 {
      assert s[..|s|] == s;
    } else {
      var init := s[..|s| - 1];
      assert init[..|init| - (k - 1)] == s[..|s| - k];
      EndGrows(s, MAGIC, k);
      CountsUp(init, k - 1);
    }
  }

  lemma SearchingBefore(s: seq<Byte>, n: nat)
    requires n <= |s| && Scan(s).Searching?
    ensures Scan(s[..n]).Searching?
  {
    if Scan(s[..n]).Hit? {
      HitStays(s, n);
    }
  }

  lemma BackAtZero(s: seq<Byte>, k: nat)
    requires Scan(s).Searching? && EndsIn(s, k)
    ensures Scan(s[..|s| - k]).Searching?
    ensures Scan(s[..|s| - k]) == Searching(0) ==> Scan(s) == Searching(k)
  {
    SearchingBefore(s, |s| - k);
    if Scan(s[..|s| - k]) == Searching(0) {
      CountsUp(s, k);
    }
  }

  lemma NotClear(s: seq<Byte>, k: nat)
    requires EndsIn(s, k) && Clear(s[..|s| - k])
    ensures !Clear(s)
  {
  }

  lemma IsClear(s: seq<Byte>)
    requires forall k: nat | EndsIn(s, k) :: !Clear(s[..|s| - k])
    ensures Clear(s)
  {
  }

  /** While nothing has been found, the counter is zero exactly at the clear positions. */
  lemma {:induction false} ZeroIffClear(s: seq<Byte>)
    requires Scan(s).Searching?
    ensures Scan(s) == Searching(0) <==> Clear(s)
    decreases |s|
  {
    var found := Scan(s).found;
    if found > 0 {
      CounterMeans(s, found);
      ZeroIffClear(s[..|s| - found]);
      NotClear(s, found);
    } else {
      forall k: nat | EndsIn(s, k) ensures !Clear(s[..|s| - k]) {
        BackAtZero(s, k);
        ZeroIffClear(s[..|s| - k]);
      }
      IsClear(s);
    }
  }

  /** An occurrence the matcher can see: it starts at a clear position. */
  ghost predicate Visible(s: seq<Byte>, end: nat) {
    Occurs(s, end) && Clear(s[..end - SIZE])
  }

  lemma VisibleLonger(s: seq<Byte>, n: nat, end: nat)
    requires n <= |s| && Visible(s[..n], end)
    ensures Visible(s, end)
  {
    assert s[..n][end - SIZE..end] == s[end - SIZE..end] && s[..n][..end - SIZE] == s[..end - SIZE];
  }

  /** Matching the last byte completes an occurrence that started at a zero counter. */
  lemma LastByteHits(s: seq<Byte>)
    requires |s| > 0 && Scan(s[..|s| - 1]) == Searching(SIZE - 1) && s[|s| - 1] == MAGIC[SIZE - 1]
    ensures Visible(s, |s|)
  {
    var init := s[..|s| - 1];
    CounterMeans(init, SIZE - 1);
    assert init[..|init| - (SIZE - 1)] == s[..|s| - SIZE];
    EndGrows(s, MAGIC, SIZE);
    assert s[|s| - SIZE..|s|] == s[|s| - SIZE..] && MAGIC[..SIZE] == MAGIC;
    ZeroIffClear(s[..|s| - SIZE]);
  }

  lemma {:induction false} HitIsVisible(s: seq<Byte>)
    requires Scan(s).Hit?
    ensures Visible(s, Scan(s).end)
  {
    var init := s[..|s| - 1];
    if Scan(init).Hit? {
      HitIsVisible(init);
      VisibleLonger(s, |s| - 1, Scan(init).end);
    } else {
      LastOne(Scan(init), s[|s| - 1], |s| - 1);
      LastByteHits(s);
    }
  }

  lemma LastOne(p: Progress, b: Byte, pos: nat)
    requires p.Searching? && p.found < SIZE && Feed(p, b, pos).Hit?
    ensures p.found == SIZE - 1 && b == MAGIC[SIZE - 1] && Feed(p, b, pos) == Hit(pos + 1)
  {
  }

  lemma VisibleIsHit(s: seq<Byte>, end: nat)
    requires Visible(s, end)
    ensures Scan(s).Hit? && Scan(s).end <= end
  {
    var start := s[..end - SIZE];
    if Scan(start).Hit? {
      HitStays(s, end - SIZE);
    } else {
      ZeroIffClear(start);
      var t := s[..end];
      assert t[..|t| - SIZE] == start && t[|t| - SIZE..] == s[end - SIZE..end] == MAGIC[..SIZE];
      CountsUp(t, SIZE);
      HitStays(s, end);
    }
  }

  /** Exactly the first occurrence that starts at a clear position is returned. */
  lemma ScanExact(s: seq<Byte>, end: nat)
    ensures Scan(s) == Hit(end) <==> Visible(s, end) && forall e :: Visible(s, e) ==> end <= e
    ensures Scan(s).Searching? <==> forall e :: !Visible(s, e)
  {
    if Scan(s).Hit? {
      HitIsVisible(s);
    }
    forall e | Visible(s, e) ensures Scan(s).Hit? && Scan(s).end <= e {
      VisibleIsHit(s, e);
    }
  }

  /** The first occurrence of all is returned when no prefix of the magic ends just before it. */
  lemma FirstOccurrence(s: seq<Byte>, end: nat)
    requires Occurs(s, end) && forall e :: Occurs(s, e) ==> end <= e
    requires EndsClean(s[..end - SIZE])
    ensures Scan(s) == Hit(end)
  {
    ScanExact(s, end);
  }

  /** An underscore in front of the magic hides it. */
  lemma HiddenByUnderscore()
    ensures var s: seq<Byte> := [95] + MAGIC; Occurs(s, 10) && Scan(s) == Searching(1)
  {
    var s: seq<Byte> := [95] + MAGIC;
    assert s[1..10] == MAGIC;
    Next(s, 0); Next(s, 1); Next(s, 2); Next(s, 3); Next(s, 4);
    Next(s, 5); Next(s, 6); Next(s, 7); Next(s, 8); Next(s, 9);
    assert s[..10] == s;
  }

  /** Build and scan: for an executable, the magic and an image glued together, the scan returns the
      offset of the image if and only if it finds nothing in the executable and the executable ends
      at a clear position. */
  lemma BuildThenScan(exe: seq<Byte>, image: seq<Byte>)
    ensures Scan(exe + MAGIC + image) == Hit(|exe| + SIZE) <==> Scan(exe).Searching? && Clear(exe)
  {
    var s, end := exe + MAGIC + image, |exe| + SIZE;
    assert s[..|exe|] == exe && s[|exe|..end] == MAGIC;
    if Scan(exe).Hit? {
      HitStays(s, |exe|);
    } else if Clear(exe) {
      var t := s[..end];
      assert t[..|t| - SIZE] == exe && t[|t| - SIZE..] == MAGIC[..SIZE];
      ZeroIffClear(exe);
      CountsUp(t, SIZE);
      HitStays(s, end);
    } else {
      ScanExact(s, end);
      assert s[..end - SIZE] == exe;
    }
  }

  /** The case the build relies on: the executable neither contains the magic nor ends in part of it. */
  lemma CleanExecutable(exe: seq<Byte>, image: seq<Byte>)
    requires forall e :: !Occurs(exe, e)
    requires EndsClean(exe)
    ensures Scan(exe + MAGIC + image) == Hit(|exe| + SIZE)
  {
    ScanExact(exe, 0);
    BuildThenScan(exe, image);
  }

  lemma OccurrencesStart(s: seq<Byte>)
    ensures forall end: nat | Occurs(s, end) :: MAGIC <= s[end - SIZE..]
  {
    forall end: nat | Occurs(s, end) ensures MAGIC <= s[end - SIZE..] {
      assert s[end - SIZE..][..SIZE] == s[end - SIZE..end];
    }
  }

  ghost predicate Spells(bytes: seq<Byte>, text: string) {
    |bytes| == |text| && forall i :: 0 <= i < |bytes| ==> bytes[i] == text[i] as int
  }

  /** The same for the text that the image build writes: what follows it is found when the executable
      neither contains it nor ends in a part that it begins with. */
  lemma AppendedImageFound(exe: seq<Byte>, text: seq<Byte>, image: seq<Byte>)
    requires Spells(text, "_sqmagic_")
    requires forall n :: 0 <= n <= |exe| ==> !(text <= exe[n..])
    requires forall k :: 1 <= k < |text| && k <= |exe| ==> exe[|exe| - k..] != text[..k]
    ensures Scan(exe + text + image) == Hit(|exe| + |text|)
  {
    assert text == MAGIC;
    OccurrencesStart(exe);
    CleanExecutable(exe, image);
  }
}
