/** From the memory map and the kernel's sections to the frame allocator: adjacent
    entries are merged, and the allocator then issues what lies outside. */
module Boot {
  import opened Frames
  import opened FrameLaws

  const FRAME_SIZE: nat := 4096
  const WORD: int := 0x1_0000_0000_0000_0000

  /** [start, end), both 64-bit. */
  datatype Range = Range(start: nat, end: nat)

  /** An entry of the memory map; only type 1 is memory that may be used. */
  datatype Entry = Entry(range: Range, ty: int)

  const RAM: int := 1

  function Spans(es: seq<Entry>): seq<Range> {
    seq(|es|, i requires 0 <= i < |es| => es[i].range)
  }

  /** A chunk and the entry after it are merged when the entry starts less than gap
      bytes past the chunk's end, in unsigned arithmetic; a gap of 1 means just there. */
  predicate Joins(prev: Range, e: Range, gap: nat) {
    (e.start - prev.end) % WORD < gap
  }

  /** The chunks that are complete after the entries es, and the one still open. */
  function Merged(es: seq<Range>, gap: nat): (seq<Range>, Range)
    requires es != []
  {
    if |es| == 1 then ([], es[0])
    else
      var (done, open) := Merged(es[..|es| - 1], gap);
      var e := es[|es| - 1];
      if Joins(open, e, gap) then (done, open.(end := e.end)) else (done + [open], e)
  }

  function Chunks(es: seq<Range>, gap: nat): seq<Range> {
    if es == [] then [] else Merged(es, gap).0 + [Merged(es, gap).1]
  }

  /** Chunks that do not start at a frame are dropped. */
  function Aligned(cs: seq<Range>): seq<Range> {
    if cs == [] then []
    else Aligned(cs[..|cs| - 1]) + if cs[|cs| - 1].start % 4096 == 0 then [cs[|cs| - 1]] else []
  }

  function Regions(cs: seq<Range>): seq<Region> {
    seq(|Aligned(cs)|, i requires 0 <= i < |Aligned(cs)| => NewRegion(Aligned(cs)[i].start, Aligned(cs)[i].end))
  }

  function Excludes(cs: seq<Range>): seq<Exclude> {
    seq(|Aligned(cs)|, i requires 0 <= i < |Aligned(cs)| => Exclude(Aligned(cs)[i].start, RoundUp(Aligned(cs)[i].end)))
  }

  ghost predicate In(x: int, rs: seq<Range>) {
    exists i :: 0 <= i < |rs| && rs[i].start <= x < rs[i].end
  }

  /** x is in the small gap between two neighbouring entries. */
  ghost predicate InGap(x: int, es: seq<Range>, gap: nat) {
    exists i :: 0 < i < |es| && es[i - 1].end <= x < es[i].start < es[i - 1].end + gap
  }

  /** Every entry ends where physical addresses do, at the latest. */
  ghost predicate Proper(es: seq<Range>) {
    forall e :: e in es ==> e.start <= e.end <= PHYS_LIMIT
  }

  lemma InAppend(x: int, rs: seq<Range>, r: Range)
    ensures In(x, rs + [r]) <==> In(x, rs) || r.start <= x < r.end
  {
    var all := rs + [r];
    if In(x, rs) {
      var i :| 0 <= i < |rs| && rs[i].start <= x < rs[i].end;
      assert all[i] == rs[i];
    }
    if r.start <= x < r.end { assert all[|rs|] == r; }
  }

  lemma GapAppend(x: int, es: seq<Range>, gap: nat)
    requires |es| > 1
    ensures InGap(x, es[..|es| - 1], gap) ==> InGap(x, es, gap)
    ensures es[|es| - 2].end <= x < es[|es| - 1].start < es[|es| - 2].end + gap ==> InGap(x, es, gap)
  {
    if InGap(x, es[..|es| - 1], gap) {
      var init := es[..|es| - 1];
      var i :| 0 < i < |init| && init[i - 1].end <= x < init[i].start < init[i - 1].end + gap;
      assert es[i - 1].end <= x < es[i].start < es[i - 1].end + gap;
    }
  }

  lemma {:induction false} OpenEnds(es: seq<Range>, gap: nat)
    requires es != [] && Proper(es) && gap <= 4096
    ensures Merged(es, gap).1.end == es[|es| - 1].end <= PHYS_LIMIT
    ensures Merged(es, gap).1.start <= Merged(es, gap).1.end
  {
    assert es[|es| - 1] in es;
    if |es| > 1 {
      OpenEnds(es[..|es| - 1], gap);
    }
  }

  /** One entry more: what the chunks cover besides it and the gap in front of it. */
  lemma OneEntry(es: seq<Range>, gap: nat, x: int)
    requires |es| > 1 && Proper(es) && gap <= 4096
    ensures In(x, Chunks(es[..|es| - 1], gap)) || es[|es| - 1].start <= x < es[|es| - 1].end ==> In(x, Chunks(es, gap))
    ensures In(x, Chunks(es, gap)) ==>
              || In(x, Chunks(es[..|es| - 1], gap)) || es[|es| - 1].start <= x < es[|es| - 1].end
              || es[|es| - 2].end <= x < es[|es| - 1].start < es[|es| - 2].end + gap
  {
    var init, e := es[..|es| - 1], es[|es| - 1];
    OpenEnds(init, gap);
    assert e in es;
    var (done, open) := Merged(init, gap);
    InAppend(x, done, open);
    if Joins(open, e, gap) {
      InAppend(x, done, open.(end := e.end));
    } else {
      InAppend(x, done + [open], e);
    }
  }

  /** Merging keeps every address of every entry, and adds only the small gaps it
      closes; with a gap of 1 there is nothing to add. */
  lemma {:induction false} MergedCovers(es: seq<Range>, gap: nat, x: int)
    requires es != [] && Proper(es) && gap <= 4096
    ensures In(x, es) ==> In(x, Chunks(es, gap))
    ensures In(x, Chunks(es, gap)) ==> In(x, es) || InGap(x, es, gap)
  {
    if |es| == 1 {
      assert Chunks(es, gap) == es;
    } else {
      var init, e := es[..|es| - 1], es[|es| - 1];
      MergedCovers(init, gap, x);
      OneEntry(es, gap, x);
      assert es == init + [e];
      InAppend(x, init, e);
      GapAppend(x, es, gap);
    }
  }

  /** The chunks of the memory map cover exactly its entries. */
  lemma MapCovered(es: seq<Range>, x: int)
    requires Proper(es)
    ensures In(x, Chunks(es, 1)) <==> In(x, es)
  {
    if es != [] { MergedCovers(es, 1, x); }
  }

  /** No chunk starts less than gap bytes past the one before it, in unsigned arithmetic. */
  lemma {:induction false} ChunksApart(es: seq<Range>, gap: nat)
    requires es != []
    ensures var cs := Chunks(es, gap); forall i :: 0 < i < |cs| ==> (cs[i].start - cs[i - 1].end) % WORD >= gap
    ensures Merged(es, gap).0 == [] ==> Merged(es, gap).1.start == es[0].start
  {
    if |es| > 1 {
      var init, e := es[..|es| - 1], es[|es| - 1];
      ChunksApart(init, gap);
      var (done, open) := Merged(init, gap);
      var cs := Chunks(init, gap);
      assert cs == done + [open];
      var cs' := Chunks(es, gap);
      forall i | 0 < i < |cs'| ensures (cs'[i].start - cs'[i - 1].end) % WORD >= gap {
        if Joins(open, e, gap) {
          assert cs'[i - 1] == cs[i - 1];
          assert i < |cs| && (cs[i].start - cs[i - 1].end) % WORD >= gap;
        } else if i < |cs| {
          assert cs'[i - 1] == cs[i - 1] && cs'[i] == cs[i];
        }
      }
    }
  }

  ghost predicate Misaligned(cs: seq<Range>) {
    exists c :: c in cs && c.start % 4096 != 0
  }

  /** Entry i starts less than gap bytes past the one before it. */
  predicate Near(es: seq<Range>, i: int, gap: nat)
    requires 0 < i < |es|
  {
    es[i - 1].end <= es[i].start < es[i - 1].end + gap
  }

  /** Every chunk starts at the first entry, or at one that is not that near. */
  lemma {:induction false} ChunkStarts(es: seq<Range>, gap: nat, c: Range)
    requires es != [] && Proper(es) && gap <= 4096 && c in Chunks(es, gap)
    ensures c.start == es[0].start || exists i :: 0 < i < |es| && c.start == es[i].start && !Near(es, i, gap)
  {
    if |es| > 1 {
      var n := |es| - 1;
      var init := es[..n];
      LastStarts(es, gap, c);
      if c.start != es[n].start || Near(es, n, gap) {
        var d :| d in Chunks(init, gap) && d.start == c.start;
        ChunkStarts(init, gap, d);
        if c.start != es[0].start {
          var i :| 0 < i < |init| && c.start == init[i].start && !Near(init, i, gap);
          assert c.start == es[i].start && !Near(es, i, gap);
        }
      }
    }
  }

  /** A chunk that does not start at the last entry starts where one did before. */
  lemma LastStarts(es: seq<Range>, gap: nat, c: Range)
    requires |es| > 1 && Proper(es) && gap <= 4096 && c in Chunks(es, gap)
    ensures var n := |es| - 1;
            c.start != es[n].start || Near(es, n, gap) ==> exists d :: d in Chunks(es[..n], gap) && d.start == c.start
  {
    var n := |es| - 1;
    var (done, open) := Merged(es[..n], gap);
    OpenEnds(es[..n], gap);
    assert es[n] in es;
    if c in done { assert c in Chunks(es[..n], gap); }
    assert open in Chunks(es[..n], gap);
  }

  /** So nothing is dropped if the first entry is aligned, and each later one is aligned or
      starts less than gap bytes past the one before it. */
  lemma NoneDropped(es: seq<Range>, gap: nat)
    requires es != [] && Proper(es) && gap <= 4096 && es[0].start % 4096 == 0
    requires forall i :: 0 < i < |es| ==>
               es[i].start % 4096 == 0 || Near(es, i, gap)
    ensures !Misaligned(Chunks(es, gap))
  {
    if Misaligned(Chunks(es, gap)) {
      var c :| c in Chunks(es, gap) && c.start % 4096 != 0;
      ChunkStarts(es, gap, c);
    }
  }

  lemma {:induction false} AlignedExact(cs: seq<Range>, c: Range)
    ensures c in Aligned(cs) <==> c in cs && c.start % 4096 == 0
  {
    if cs != [] {
      AlignedExact(cs[..|cs| - 1], c);
      assert cs == cs[..|cs| - 1] + [cs[|cs| - 1]];
    }
  }

  lemma TablesGood(mem: seq<Range>, sections: seq<Range>)
    ensures GoodTables(Regions(mem), Excludes(sections))
  {
    forall r | r in Regions(mem) ensures GoodRegion(r) {
      var i :| 0 <= i < |Regions(mem)| && Regions(mem)[i] == r;
      AlignedExact(mem, Aligned(mem)[i]);
      assert Aligned(mem)[i] in Aligned(mem);
    }
    forall x | x in Excludes(sections) ensures GoodExclude(x) {
      var i :| 0 <= i < |Excludes(sections)| && Excludes(sections)[i] == x;
    }
  }

  /** Frame f lies in the aligned chunk c, not below its first usable frame, and
      past the end of every excluded chunk that touches c. */
  ghost predicate Usable(c: Range, sections: seq<Range>, f: int) {
    && (if c.start == 0 then 4096 else c.start) <= 4096 * f < RoundUp(c.end)
    && forall s | s in sections && s.start % 4096 == 0 && !(c.start > RoundUp(s.end) || RoundUp(c.end) < s.start) ::
         RoundUp(s.end) + 4096 <= 4096 * f
  }

  /** The frames handed out from start-up, before any is freed, are exactly the
      usable ones. */
  lemma BootExact(mem: seq<Range>, sections: seq<Range>, f: int)
    ensures f in Fresh(Regions(mem), Excludes(sections)) <==>
            exists c :: c in mem && c.start % 4096 == 0 && Usable(c, sections, f)
  {
    TablesGood(mem, sections);
    FreshExact(Regions(mem), Excludes(sections), f);
    forall c | c in mem && c.start % 4096 == 0
      ensures Usable(c, sections, f) <==> Issuable(NewRegion(c.start, c.end), Excludes(sections), f)
    {
      UsableIssuable(c, sections, f);
    }
    if f in Fresh(Regions(mem), Excludes(sections)) {
      var i :| 0 <= i < |Regions(mem)| && Issuable(Regions(mem)[i], Excludes(sections), f);
      var c := Aligned(mem)[i];
      AlignedExact(mem, c);
      assert c in Aligned(mem);
      assert Usable(c, sections, f);
    }
    if c :| c in mem && c.start % 4096 == 0 && Usable(c, sections, f) {
      AlignedExact(mem, c);
      var i :| 0 <= i < |Aligned(mem)| && Aligned(mem)[i] == c;
      assert Regions(mem)[i] == NewRegion(c.start, c.end);
    }
  }

  lemma UsableIssuable(c: Range, sections: seq<Range>, f: int)
    ensures Usable(c, sections, f) <==> Issuable(NewRegion(c.start, c.end), Excludes(sections), f)
  {
    var r, exs := NewRegion(c.start, c.end), Excludes(sections);
    if Usable(c, sections, f) {
      forall x | x in exs && Touches(r, x) ensures x.end + 4096 <= 4096 * f {
        var i :| 0 <= i < |exs| && exs[i] == x;
        AlignedExact(sections, Aligned(sections)[i]);
        assert Aligned(sections)[i] in Aligned(sections);
      }
    }
    if Issuable(r, exs, f) {
      forall s | s in sections && s.start % 4096 == 0 && !(c.start > RoundUp(s.end) || RoundUp(c.end) < s.start)
        ensures RoundUp(s.end) + 4096 <= 4096 * f
      {
        AlignedExact(sections, s);
        var i :| 0 <= i < |Aligned(sections)| && Aligned(sections)[i] == s;
        assert exs[i] == Exclude(s.start, RoundUp(s.end)) && Touches(r, exs[i]);
      }
    }
  }

  lemma FrameStart(c: Range, f: int)
    requires (if c.start == 0 then 4096 else c.start) <= 4096 * f < RoundUp(c.end)
    ensures c.start <= 4096 * f < c.end
  {}

  /** The first byte of every frame handed out belongs to an entry of the map. */
  lemma FrameInMap(mmap: seq<Range>, sections: seq<Range>, f: int)
    requires Proper(mmap) && f in Fresh(Regions(Chunks(mmap, 1)), Excludes(sections))
    ensures In(4096 * f, mmap)
  {
    var cs := Chunks(mmap, 1);
    BootExact(cs, sections, f);
    var c :| c in cs && c.start % 4096 == 0 && Usable(c, sections, f);
    var i :| 0 <= i < |cs| && cs[i] == c;
    FrameStart(c, f);
    MapCovered(mmap, 4096 * f);
  }

  ghost predicate InType(x: int, es: seq<Entry>, ram: bool) {
    exists i :: 0 <= i < |es| && (es[i].ty == RAM <==> ram) && es[i].range.start <= x < es[i].range.end
  }

  /** The type of an entry is never looked at. So no frame that is handed out starts in
      an entry that is not RAM if and only if no such entry contains the start of a
      usable frame of an aligned chunk. */
  lemma RamExact(es: seq<Entry>, sections: seq<Range>)
    ensures (forall f :: f in Fresh(BootRegions(Spans(es)), BootExcludes(sections)) ==> !InType(4096 * f, es, false))
            <==> (forall c, f | c in Chunks(Spans(es), 1) && c.start % 4096 == 0 ::
                    Usable(c, Chunks(Looked(sections), 4096), f) ==> !InType(4096 * f, es, false))
  {
    var cs, xs := Chunks(Spans(es), 1), Chunks(Looked(sections), 4096);
    forall f ensures f in Fresh(BootRegions(Spans(es)), BootExcludes(sections)) <==>
                     exists c :: c in cs && c.start % 4096 == 0 && Usable(c, xs, f)
    {
      BootExact(cs, xs, f);
    }
  }

  /** A frame that does not start in such an entry starts in RAM. */
  lemma FrameInRam(es: seq<Entry>, sections: seq<Range>, f: int)
    requires Proper(Spans(es)) && f in Fresh(BootRegions(Spans(es)), BootExcludes(sections))
    requires !InType(4096 * f, es, false)
    ensures InType(4096 * f, es, true)
  {
    FrameInMap(Spans(es), Chunks(Looked(sections), 4096), f);
    var i :| 0 <= i < |es| && Spans(es)[i].start <= 4096 * f < Spans(es)[i].end;
    assert es[i].range == Spans(es)[i];
  }

  /** The firmware's reserved range below 4 GB, alone in the map: its first frame is
      handed out. */
  lemma ReservedIssued()
    ensures var es := [Entry(Range(0xfffc_0000, 0x1_0000_0000), 2)];
            && 0xf_ffc0 in Fresh(BootRegions(Spans(es)), BootExcludes([]))
            && InType(4096 * 0xf_ffc0, es, false)
  {
    var e := Entry(Range(0xfffc_0000, 0x1_0000_0000), 2);
    assert Spans([e]) == [e.range];
    assert Chunks([e.range], 1) == [e.range];
    assert Usable(e.range, Chunks(Looked([]), 4096), 0xf_ffc0);
    BootExact([e.range], Chunks(Looked([]), 4096), 0xf_ffc0);
    assert [e][0].ty == 2;
  }

  /** Two ranges that share no address share no frame number either. */
  ghost predicate Disjoint(cs: seq<Range>) {
    forall i, j :: 0 <= i < j < |cs| ==> cs[i].end <= cs[j].start || cs[j].end <= cs[i].start
  }

  lemma {:induction false} AlignedDisjoint(cs: seq<Range>)
    requires Disjoint(cs)
    ensures Disjoint(Aligned(cs))
  {
    if cs != [] {
      var init, c := cs[..|cs| - 1], cs[|cs| - 1];
      assert Disjoint(init);
      AlignedDisjoint(init);
      var a := Aligned(init);
      forall i | 0 <= i < |a| ensures a[i].end <= c.start || c.end <= a[i].start {
        AlignedExact(init, a[i]);
        assert a[i] in a;
        var k :| 0 <= k < |init| && init[k] == a[i];
        assert cs[k] == a[i];
      }
    }
  }

  /** If the chunks of the memory map do not overlap, no frame is issued twice, not
      even one that a chunk's end was rounded up to. */
  lemma BootOnce(mem: seq<Range>, sections: seq<Range>)
    requires Disjoint(mem)
    ensures NoRepeat(Fresh(Regions(mem), Excludes(sections)))
  {
    TablesGood(mem, sections);
    AlignedDisjoint(mem);
    var regs, exs, a := Regions(mem), Excludes(sections), Aligned(mem);
    forall i, j, f | 0 <= i < j < |regs| && Issuable(regs[i], exs, f) ensures !Issuable(regs[j], exs, f) {
      AlignedExact(mem, a[i]);
      AlignedExact(mem, a[j]);
      assert a[i] in a && a[j] in a;
      FrameInOne(a[i], a[j], f);
    }
    FreshOnce(regs, exs);
  }

  lemma FrameInOne(c: Range, d: Range, f: int)
    requires c.start % 4096 == 0 && d.start % 4096 == 0 && (c.end <= d.start || d.end <= c.start)
    ensures !(c.start <= 4096 * f < RoundUp(c.end) && d.start <= 4096 * f < RoundUp(d.end))
  {}

  lemma CursorsPositive(mem: seq<Range>)
    ensures forall r :: r in Regions(mem) ==> 0 < r.cursor && r.start <= r.cursor
  {
    forall r | r in Regions(mem) ensures 0 < r.cursor && r.start <= r.cursor {
      var j :| 0 <= j < |Regions(mem)| && Regions(mem)[j] == r;
    }
  }

  /** An address in an aligned chunk is in an excluded range. */
  lemma Excluded(cs: seq<Range>, x: int) returns (ex: Exclude)
    requires In(x, cs) && !Misaligned(cs)
    ensures ex in Excludes(cs) && ex.start <= x < ex.end
  {
    var i :| 0 <= i < |cs| && cs[i].start <= x < cs[i].end;
    assert cs[i] in cs;
    AlignedExact(cs, cs[i]);
    var k :| 0 <= k < |Aligned(cs)| && Aligned(cs)[k] == cs[i];
    ex := Excludes(cs)[k];
  }

  /** Unless a chunk of the sections was dropped for its alignment, no frame that is
      ever issued overlaps a byte of the sections; frame 0 is never issued. */
  lemma KernelSafe(mem: seq<Range>, sections: seq<Range>, f: int, x: int)
    requires Proper(sections) && !Misaligned(Chunks(sections, 4096)) && In(x, sections)
    requires f in Fresh(Regions(mem), Excludes(Chunks(sections, 4096)))
    ensures f > 0 && !(4096 * f <= x < 4096 * f + 4096)
  {
    assert sections != [];
    MergedCovers(sections, 4096, x);
    var cs := Chunks(sections, 4096);
    var ex := Excluded(cs, x);
    TablesGood(mem, cs);
    CursorsPositive(mem);
    FreshAvoidsExcluded(Regions(mem), Excludes(cs), f, ex);
  }

  /** The sections that are looked at: the first one is skipped. */
  function Looked(sections: seq<Range>): seq<Range> {
    if sections == [] then [] else sections[1..]
  }

  /** No section but the first is ever issued, and no warning is due, when the second
      section is aligned and each later one is aligned or starts less than a frame past the
      one before it. */
  lemma SectionsSafe(mem: seq<Range>, sections: seq<Range>, f: int, i: int, x: int)
    requires Proper(Looked(sections)) && 0 < i < |sections| && sections[i].start <= x < sections[i].end
    requires sections[1].start % 4096 == 0
    requires forall j :: 1 < j < |sections| ==>
               sections[j].start % 4096 == 0 || Near(sections, j, 4096)
    requires f in Fresh(Regions(mem), BootExcludes(sections))
    ensures f > 0 && !(4096 * f <= x < 4096 * f + 4096) && !Misaligned(Chunks(Looked(sections), 4096))
  {
    var es := Looked(sections);
    assert es[i - 1] == sections[i];
    forall j | 0 < j < |es| ensures es[j].start % 4096 == 0 || Near(es, j, 4096) {
      assert es[j] == sections[j + 1] && es[j - 1] == sections[j];
      assert Near(sections, j + 1, 4096) == Near(es, j, 4096);
    }
    NoneDropped(es, 4096);
    KernelSafe(mem, es, f, x);
  }

  ghost predicate MapFits(mmap: seq<Range>) {
    mmap != [] && Proper(mmap) && |Aligned(Chunks(mmap, 1))| <= MAX_MEM_REGIONS
  }

  ghost predicate SectionsFit(sections: seq<Range>) {
    Proper(Looked(sections)) && |Aligned(Chunks(Looked(sections), 4096))| <= MAX_EXCLUDE_REGIONS
  }

  /** The tables of the frame allocator after start-up. */
  function BootRegions(mmap: seq<Range>): seq<Region> { Regions(Chunks(mmap, 1)) }

  function BootExcludes(sections: seq<Range>): seq<Exclude> { Excludes(Chunks(Looked(sections), 4096)) }

  /** The kernel's start-up. warn says whether a warning is printed: the result for
      the memory map has been overwritten by then. */
  method InitMemRegions(mmap: seq<Entry>, sections: seq<Range>, frames: FrameAllocator) returns (warn: bool)
    requires frames.Valid() && frames.memReg == [] && frames.memEx == []
    requires MapFits(Spans(mmap)) && SectionsFit(sections)
    modifies frames`memReg, frames`memEx, frames`pool
    ensures frames.Valid() && frames.pool.freed == old(frames.pool.freed)
    ensures frames.memReg == BootRegions(Spans(mmap)) && frames.memEx == BootExcludes(sections)
    ensures warn <==> |sections| < 2 || Misaligned(Chunks(Looked(sections), 4096))
  {
    AddRegions(mmap, frames);
    warn := AddSections(sections, frames);
  }

  /** The part of it that is about the sections. */
  method AddSections(sections: seq<Range>, frames: FrameAllocator) returns (warn: bool)
    requires frames.Valid() && frames.memEx == [] && SectionsFit(sections)
    modifies frames`memEx, frames`pool
    ensures frames.Valid() && frames.pool.freed == old(frames.pool.freed)
    ensures frames.memEx == BootExcludes(sections)
    ensures warn <==> |sections| < 2 || Misaligned(Chunks(Looked(sections), 4096))
  {
    NothingLooked(sections);
    if |sections| < 2 {
      return true;
    }
    warn := AddExcludes(sections[1..], frames);
  }

  lemma NothingLooked(sections: seq<Range>)
    ensures |sections| < 2 ==>
              Excludes(Chunks(Looked(sections), 4096)) == [] && !Misaligned(Chunks(Looked(sections), 4096))
    ensures |sections| >= 2 ==> Looked(sections) == sections[1..] != []
  {}

  /** The loop over the memory map; the open chunk is registered when it ends. */
  method AddRegions(mmap: seq<Entry>, frames: FrameAllocator)
    requires MapFits(Spans(mmap)) && frames.Valid() && frames.memReg == []
    modifies frames`memReg, frames`pool
    ensures frames.Valid() && frames.pool.freed == old(frames.pool.freed)
    ensures frames.memReg == BootRegions(Spans(mmap))
  {
    ghost var rs := Spans(mmap);
    var prev := mmap[0].range;
    var i := 1;
    ghost var done: seq<Range> := [];
    assert rs[..1] == [rs[0]];
    while i < |mmap|
      invariant 1 <= i <= |mmap| && frames.Valid() && frames.pool.freed == old(frames.pool.freed)
      invariant Merged(rs[..i], 1) == (done, prev) && frames.memReg == Regions(done)
    {
      Turn(rs, i, 1);
      var start, end := mmap[i].range.start, mmap[i].range.end;
      assert rs[i] == Range(start, end);
      if prev.end == start {
        prev := prev.(end := end);
      } else {
        Room(rs, i, 1);
        AddRegion(frames, done, prev);
        done := done + [prev];
        prev := Range(start, end);
      }
      i := i + 1;
    }
    assert rs[..i] == rs;
    OpenEnds(rs, 1);
    AddRegion(frames, done, prev);
  }

  method AddRegion(frames: FrameAllocator, ghost done: seq<Range>, c: Range)
    requires frames.Valid() && frames.memReg == Regions(done) && c.end <= PHYS_LIMIT
    requires |Aligned(done + [c])| <= MAX_MEM_REGIONS
    modifies frames`memReg, frames`pool
    ensures frames.Valid() && frames.pool.freed == old(frames.pool.freed)
    ensures frames.memReg == Regions(done + [c])
  {
    RegionsNext(done, c);
    var res := frames.AddMemRegion(c.start, c.end);
  }

  lemma FirstEntry(e: Range, gap: nat)
    ensures Merged([e], gap) == ([], e) && Excludes([]) == [] && !Misaligned([])
  {}

  /** The loop over the sections. */
  method AddExcludes(sections: seq<Range>, frames: FrameAllocator) returns (bad: bool)
    requires sections != [] && Proper(sections) && frames.Valid() && frames.memEx == []
    requires |Aligned(Chunks(sections, 4096))| <= MAX_EXCLUDE_REGIONS
    modifies frames`memEx, frames`pool
    ensures frames.Valid() && frames.pool.freed == old(frames.pool.freed)
    ensures frames.memEx == Excludes(Chunks(sections, 4096))
    ensures bad <==> Misaligned(Chunks(sections, 4096))
  {
    hide Merged, Aligned, Proper, Misaligned, Regions, Excludes;
    FirstEntry(sections[0], 4096);
    bad := false;
    var prev := sections[0];
    var i := 1;
    ghost var done: seq<Range> := [];
    assert sections[..1] == [sections[0]];
    while i < |sections|
      invariant 1 <= i <= |sections| && frames.Valid() && frames.pool.freed == old(frames.pool.freed)
      invariant Merged(sections[..i], 4096) == (done, prev) && frames.memEx == Excludes(done)
      invariant bad <==> Misaligned(done)
    {
      Turn(sections, i, 4096);
      var start, end := sections[i].start, sections[i].end;
      if (start - prev.end) % WORD < FRAME_SIZE {
        prev := prev.(end := end);
      } else {
        Room(sections, i, 4096);
        var res := AddExclude(frames, done, prev);
        bad := bad || res;
        done := done + [prev];
        prev := sections[i];
      }
      i := i + 1;
    }
    assert sections[..i] == sections;
    OpenEnds(sections, 4096);
    var res := AddExclude(frames, done, prev);
    bad := bad || res;
  }

  method AddExclude(frames: FrameAllocator, ghost done: seq<Range>, c: Range) returns (bad: bool)
    requires frames.Valid() && frames.memEx == Excludes(done) && c.end <= PHYS_LIMIT
    requires |Aligned(done + [c])| <= MAX_EXCLUDE_REGIONS
    modifies frames`memEx, frames`pool
    ensures frames.Valid() && frames.pool.freed == old(frames.pool.freed)
    ensures frames.memEx == Excludes(done + [c])
    ensures Misaligned(done + [c]) <==> Misaligned(done) || bad
  {
    RegionsNext(done, c);
    MisalignedNext(done, c);
    var res := frames.AddMemExcludeRegion(c.start, c.end);
    bad := res != 0;
  }

  lemma MisalignedNext(done: seq<Range>, c: Range)
    ensures Misaligned(done + [c]) <==> Misaligned(done) || c.start % 4096 != 0
  {
    if Misaligned(done) {
      var d :| d in done && d.start % 4096 != 0;
      assert d in done + [c];
    }
    if c.start % 4096 != 0 { assert c in done + [c]; }
  }

  /** One turn of either loop. */
  lemma Turn(es: seq<Range>, i: nat, gap: nat)
    requires 0 < i < |es| && Proper(es) && gap <= 4096
    ensures var (done, open) := Merged(es[..i], gap);
            && open.end <= PHYS_LIMIT
            && (gap == 1 ==> (Joins(open, es[i], 1) <==> open.end == es[i].start))
            && Merged(es[..i + 1], gap) ==
               if Joins(open, es[i], gap) then (done, open.(end := es[i].end)) else (done + [open], es[i])
  {
    assert Proper(es[..i]);
    OpenEnds(es[..i], gap);
    assert es[..i + 1][..i] == es[..i];
    assert es[i] in es;
  }

  lemma RegionsNext(done: seq<Range>, c: Range)
    ensures Regions(done + [c]) ==
            Regions(done) + if c.start % 4096 == 0 then [NewRegion(c.start, c.end)] else []
    ensures Excludes(done + [c]) ==
            Excludes(done) + if c.start % 4096 == 0 then [Exclude(c.start, RoundUp(c.end))] else []
    ensures |Regions(done)| == |Excludes(done)| == |Aligned(done)|
    ensures c.start % 4096 == 0 ==> |Aligned(done)| < |Aligned(done + [c])|
  {
    assert (done + [c])[..|done|] == done;
  }

  lemma {:induction false} DonePrefix(es: seq<Range>, i: nat, gap: nat)
    requires 0 < i <= |es|
    ensures Merged(es[..i], gap).0 <= Merged(es, gap).0
  {
    if i < |es| {
      DonePrefix(es[..|es| - 1], i, gap);
      assert es[..|es| - 1][..i] == es[..i];
    } else {
      assert es[..i] == es;
    }
  }

  lemma {:induction false} AlignedGrows(a: seq<Range>, b: seq<Range>)
    ensures |Aligned(a)| <= |Aligned(a + b)|
  {
    if b == [] {
      assert a + b == a;
    } else {
      AlignedGrows(a, b[..|b| - 1]);
      assert (a + b)[..|a + b| - 1] == a + b[..|b| - 1];
    }
  }

  lemma AlignedPrefix(a: seq<Range>, b: seq<Range>)
    requires a <= b
    ensures |Aligned(a)| <= |Aligned(b)|
  {
    AlignedGrows(a, b[|a|..]);
    assert a + b[|a|..] == b;
  }

  /** The tables have room for a chunk that is complete before the last entry. */
  lemma Room(es: seq<Range>, i: nat, gap: nat)
    requires 0 < i < |es| && Proper(es) && gap <= 4096
    ensures !Joins(Merged(es[..i], gap).1, es[i], gap) ==>
              |Aligned(Merged(es[..i], gap).0 + [Merged(es[..i], gap).1])| <= |Aligned(Chunks(es, gap))|
  {
    Turn(es, i, gap);
    DonePrefix(es, i + 1, gap);
    var all := Merged(es, gap);
    assert all.0 <= all.0 + [all.1];
    AlignedPrefix(Merged(es[..i + 1], gap).0, all.0 + [all.1]);
  }
}
