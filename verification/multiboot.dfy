/** The boot information that a Multiboot2 loader leaves in memory: a list of tags,
    each padded to 8 bytes, ended by a tag of type 0. */
module Multiboot {
  import Boot
  import Frames

  /** The byte at every address. */
  type Bytes = int -> int

  /** The little-endian 32-bit word at every address. */
  type Words = int -> nat

  const MAGIC: int := 0x36d76289
  const MEMINFO: int := 4
  const MMAP: int := 6
  const ELF: int := 9

  function Le32(m: Bytes, a: int): int {
    m(a) + 0x100 * m(a + 1) + 0x1_0000 * m(a + 2) + 0x100_0000 * m(a + 3)
  }

  ghost predicate Reads(w: Words, m: Bytes) {
    forall a :: w(a) == Le32(m, a)
  }

  function Long(w: Words, a: int): nat { w(a) + 0x1_0000_0000 * w(a + 4) }

  /** PAD_PTR */
  function Pad(x: int): (r: int)
    ensures x <= r < x + 8 && r % 8 == 0
  {
    (x + 7) / 8 * 8
  }

  /** What the kernel keeps: addresses, sizes and counts, 0 when missing. */
  datatype Info = Info(memLower: int, memUpper: int, entrySize: int, mmap: int, mmapMax: int,
                       elfTag: int, elfNum: int, elfSize: int)

  const NOTHING: Info := Info(0, 0, 0, 0, 0, 0, 0, 0)

  /** At the end tag, past the end without one, or at a tag of size 0 for ever. */
  datatype Ending = AtEndTag | PastEnd | Hangs

  /** What the tag at pos adds; the two ELF fields are 16 bits wide. */
  function Learn(w: Words, pos: int, info: Info): Info {
    var ty := w(pos);
    if ty == MEMINFO then info.(memLower := w(pos + 8), memUpper := w(pos + 12))
    else if ty == MMAP then
      info.(entrySize := w(pos + 8), mmap := pos + 16, mmapMax := pos + w(pos + 4))
    else if ty == ELF then
      info.(elfTag := pos, elfNum := w(pos + 8) % 0x1_0000, elfSize := w(pos + 12) % 0x1_0000)
    else info
  }

  /** The tags visited from pos on, and how that ends. */
  function Visit(w: Words, pos: int, max: int): (seq<int>, Ending)
    decreases max - pos
  {
    if pos >= max then ([], PastEnd)
    else if w(pos) == 0 then ([], AtEndTag)
    else if w(pos + 4) <= 0 then ([pos], Hangs)
    else
      var (rest, ending) := Visit(w, Pad(pos + w(pos + 4)), max);
      ([pos] + rest, ending)
  }

  /** From pos on, exactly the tags at are visited, and that ends so. */
  ghost predicate Visits(w: Words, pos: int, max: int, at: seq<int>, ending: Ending) {
    at == Visit(w, pos, max).0 && ending == Visit(w, pos, max).1
  }

  /** Parsing hangs if and only if the last tag it visits has size 0; it never gets past
      such a tag. */
  lemma {:induction false} HangsExact(w: Words, pos: int, max: int, at: seq<int>, ending: Ending)
    requires Visits(w, pos, max, at, ending)
    ensures ending == Hangs <==> at != [] && w(at[|at| - 1] + 4) == 0
    ensures forall i :: 0 <= i < |at| - 1 ==> w(at[i] + 4) > 0
    ensures forall i :: 0 <= i < |at| ==> w(at[i]) != 0
    decreases max - pos
  {
    if pos < max && w(pos) != 0 && w(pos + 4) > 0 {
      HangsExact(w, Pad(pos + w(pos + 4)), max, at[1..], ending);
    }
  }

  /** One turn of the loop. */
  lemma VisitsNext(w: Words, pos: int, max: int, at: seq<int>, ending: Ending)
    requires Visits(w, pos, max, at, ending)
    ensures pos >= max ==> at == [] && ending == PastEnd
    ensures pos < max && w(pos) == 0 ==> at == [] && ending == AtEndTag
    ensures pos < max && w(pos) != 0 ==> at != [] && at[0] == pos
    ensures pos < max && w(pos) != 0 && w(pos + 4) <= 0 ==> at == [pos] && ending == Hangs
    ensures pos < max && w(pos) != 0 && w(pos + 4) > 0 ==>
              Visits(w, Pad(pos + w(pos + 4)), max, at[1..], ending)
  {}

  function LearnAll(w: Words, at: seq<int>): Info {
    if at == [] then NOTHING else Learn(w, at[|at| - 1], LearnAll(w, at[..|at| - 1]))
  }

  lemma LearnNone(w: Words)
    ensures LearnAll(w, []) == NOTHING
  {}

  lemma LearnNext(w: Words, pos: int, visited: seq<int>)
    ensures LearnAll(w, visited + [pos]) == Learn(w, pos, LearnAll(w, visited))
  {
    assert (visited + [pos])[..|visited|] == visited;
  }

  lemma Split(visited: seq<int>, rest: seq<int>)
    requires rest != []
    ensures visited + rest == (visited + [rest[0]]) + rest[1..]
  {}

  lemma Visited(w: Words, pos: int, max: int) returns (at: seq<int>, ending: Ending)
    ensures Visits(w, pos, max, at, ending)
  {
    at, ending := Visit(w, pos, max).0, Visit(w, pos, max).1;
  }

  /** Visits exactly the tags that Visits says and keeps what each of them adds. */
  method ParseMultiboot(w: Words, magic: int, header: int) returns (info: Info, visited: seq<int>, ending: Ending)
    ensures magic != MAGIC ==> info == NOTHING
    ensures magic == MAGIC ==> Visits(w, Pad(header + 8), header + w(header), visited, ending)
    ensures magic == MAGIC ==> info == LearnAll(w, visited)
    ensures magic == MAGIC ==> (ending == Hangs <==> visited != [] && w(visited[|visited| - 1] + 4) == 0)
  {
    hide Visits, Learn, LearnAll, Pad;
    LearnNone(w);
    info, visited, ending := NOTHING, [], PastEnd;
    if magic != MAGIC {
      return;
    }
    var max := header + w(header);
    var pos := Pad(header + 8);
    ghost var all, last := Visited(w, pos, max);
    ghost var rest := all;
    HangsExact(w, pos, max, all, last);
    while pos < max
      invariant info == LearnAll(w, visited) && ending == PastEnd
      invariant all == visited + rest && Visits(w, pos, max, rest, last)
      decreases max - pos
    {
      VisitsNext(w, pos, max, rest, last);
      if w(pos) == 0 {
        ending := AtEndTag;
        break;
      }
      LearnNext(w, pos, visited);
      Split(visited, rest);
      info := TakeTag(w, pos, info);
      visited := visited + [pos];
      rest := rest[1..];
      if w(pos + 4) <= 0 {
        ending := Hangs;
        break;
      }
      pos := Pad(pos + w(pos + 4));
    }
    if ending == PastEnd { VisitsNext(w, pos, max, rest, last); }
    assert visited == all && ending == last;
  }

  /** The three conditionals of the loop. */
  method TakeTag(w: Words, pos: int, before: Info) returns (info: Info)
    ensures info == Learn(w, pos, before)
  {
    info := before;
    var ty := w(pos);
    if ty == MEMINFO {
      info := info.(memLower := w(pos + 8), memUpper := w(pos + 12));
    }
    if ty == MMAP {
      info := info.(entrySize := w(pos + 8), mmap := pos + 16, mmapMax := pos + w(pos + 4));
    }
    if ty == ELF {
      info := info.(elfTag := pos, elfNum := w(pos + 8) % 0x1_0000, elfSize := w(pos + 12) % 0x1_0000);
    }
  }

  // What a loader writes.

  /** A tag's type, the bytes after its type and size, and those up to the next tag. */
  datatype Tag = Tag(ty: int, payload: seq<int>, padding: seq<int>)

  function B32(v: int): (b: seq<int>)
    ensures |b| == 4
  {
    [v % 0x100, v / 0x100 % 0x100, v / 0x1_0000 % 0x100, v / 0x100_0000 % 0x100]
  }

  function B64(v: int): (b: seq<int>)
    ensures |b| == 8
  {
    B32(v % 0x1_0000_0000) + B32(v / 0x1_0000_0000)
  }

  function Size(t: Tag): nat { 8 + |t.payload| }

  function Encode(t: Tag): (b: seq<int>)
    ensures |b| == Size(t)
  {
    B32(t.ty) + B32(Size(t)) + t.payload
  }

  /** The padded tags and the end tag. */
  function Stream(tags: seq<Tag>): seq<int> {
    if tags == [] then B32(0) + B32(8)
    else Encode(tags[0]) + tags[0].padding + Stream(tags[1..])
  }

  ghost predicate Proper(t: Tag) {
    0 < t.ty < 0x1_0000_0000 && Size(t) < 0x1_0000_0000 && Size(t) + |t.padding| == Pad(Size(t))
  }

  /** m holds the bytes b from address a on. */
  ghost predicate Holds(m: Bytes, a: int, b: seq<int>) {
    forall i :: 0 <= i < |b| ==> m(a + i) == b[i]
  }

  lemma HoldsParts(m: Bytes, a: int, b: seq<int>, c: seq<int>)
    ensures Holds(m, a, b + c) <==> Holds(m, a, b) && Holds(m, a + |b|, c)
  {
    if Holds(m, a, b + c) {
      forall i | 0 <= i < |b| ensures m(a + i) == b[i] { assert (b + c)[i] == b[i]; }
      forall i | 0 <= i < |c| ensures m(a + |b| + i) == c[i] { assert m(a + (|b| + i)) == (b + c)[|b| + i]; }
    }
    if Holds(m, a, b) && Holds(m, a + |b|, c) {
      forall i | 0 <= i < |b + c| ensures m(a + i) == (b + c)[i] {
        if i >= |b| { assert m(a + |b| + (i - |b|)) == c[i - |b|]; }
      }
    }
  }

  lemma Digits(v: int)
    requires 0 <= v < 0x1_0000_0000
    ensures v == B32(v)[0] + 0x100 * B32(v)[1] + 0x1_0000 * B32(v)[2] + 0x100_0000 * B32(v)[3]
  {
    var b, c := v / 0x100, v / 0x1_0000;
    assert v == 0x100 * b + v % 0x100;
    assert c == b / 0x100 && v / 0x100_0000 == c / 0x100;
  }

  lemma Read32(w: Words, m: Bytes, a: int, v: int)
    requires Reads(w, m) && Holds(m, a, B32(v)) && 0 <= v < 0x1_0000_0000
    ensures w(a) == v
  {
    Digits(v);
    assert w(a) == Le32(m, a);
    assert m(a + 0) == B32(v)[0] && m(a + 1) == B32(v)[1] && m(a + 2) == B32(v)[2] && m(a + 3) == B32(v)[3];
  }

  lemma Read64(w: Words, m: Bytes, a: int, v: int)
    requires Reads(w, m) && Holds(m, a, B64(v)) && 0 <= v < 0x1_0000_0000_0000_0000
    ensures Long(w, a) == v
  {
    hide Reads, Holds;
    HoldsParts(m, a, B32(v % 0x1_0000_0000), B32(v / 0x1_0000_0000));
    Read32(w, m, a, v % 0x1_0000_0000);
    Read32(w, m, a + 4, v / 0x1_0000_0000);
  }

  lemma ReadTag(w: Words, m: Bytes, a: int, t: Tag)
    requires Reads(w, m) && Holds(m, a, Encode(t)) && Proper(t)
    ensures w(a) == t.ty && w(a + 4) == Size(t) && Holds(m, a + 8, t.payload)
  {
    hide Reads, Holds;
    HoldsParts(m, a, B32(t.ty) + B32(Size(t)), t.payload);
    HoldsParts(m, a, B32(t.ty), B32(Size(t)));
    Read32(w, m, a, t.ty);
    Read32(w, m, a + 4, Size(t));
  }

  /** The addresses of the tags when the first is at a. */
  function Places(tags: seq<Tag>, a: int): seq<int> {
    if tags == [] then [] else [a] + Places(tags[1..], Pad(a + Size(tags[0])))
  }

  function EndOf(tags: seq<Tag>, a: int): int {
    if tags == [] then a else EndOf(tags[1..], Pad(a + Size(tags[0])))
  }

  lemma PadShift(a: int, n: int)
    requires a % 8 == 0
    ensures Pad(a + n) == a + Pad(n)
  {}

  lemma StreamParts(m: Bytes, tags: seq<Tag>, a: int)
    requires tags != [] && Proper(tags[0]) && Holds(m, a, Stream(tags)) && a % 8 == 0
    ensures Holds(m, a, Encode(tags[0])) && Holds(m, Pad(a + Size(tags[0])), Stream(tags[1..]))
  {
    hide Holds;
    var t := tags[0];
    PadShift(a, Size(t));
    HoldsParts(m, a, Encode(t) + t.padding, Stream(tags[1..]));
    HoldsParts(m, a, Encode(t), t.padding);
  }

  lemma VisitTag(w: Words, m: Bytes, t: Tag, a: int, max: int, rest: seq<int>, ending: Ending)
    requires Reads(w, m) && Holds(m, a, Encode(t)) && Proper(t) && a < max
    requires Visits(w, Pad(a + Size(t)), max, rest, ending)
    ensures Visits(w, a, max, [a] + rest, ending)
  {
    hide Reads, Holds;
    ReadTag(w, m, a, t);
    VisitsBefore(w, a, max, rest, ending);
  }

  lemma VisitsBefore(w: Words, a: int, max: int, rest: seq<int>, ending: Ending)
    requires a < max && w(a) != 0 && w(a + 4) > 0 && Visits(w, Pad(a + w(a + 4)), max, rest, ending)
    ensures Visits(w, a, max, [a] + rest, ending)
  {
  }

  lemma VisitEnd(w: Words, m: Bytes, a: int, max: int)
    requires Reads(w, m) && Holds(m, a, Stream([])) && a < max
    ensures Visits(w, a, max, [], AtEndTag)
  {
    hide Reads, Holds;
    HoldsParts(m, a, B32(0), B32(8));
    Read32(w, m, a, 0);
  }

  /** Parsing a serialised tag list ends at its end tag, having visited every tag
      once, in order. */
  lemma {:induction false} VisitStream(w: Words, m: Bytes, tags: seq<Tag>, a: int, max: int)
    requires Reads(w, m) && Holds(m, a, Stream(tags)) && a % 8 == 0 && EndOf(tags, a) < max
    requires forall t :: t in tags ==> Proper(t)
    ensures Visits(w, a, max, Places(tags, a), AtEndTag)
    decreases |tags|
  {
    hide Reads, Holds, Visits;
    if tags == [] {
      VisitEnd(w, m, a, max);
    } else {
      var next := Pad(a + Size(tags[0]));
      EndLater(tags, a);
      StreamParts(m, tags, a);
      VisitStream(w, m, tags[1..], next, max);
      VisitTag(w, m, tags[0], a, max, Places(tags[1..], next), AtEndTag);
    }
  }

  lemma {:induction false} EndLater(tags: seq<Tag>, a: int)
    ensures a <= EndOf(tags, a)
    decreases |tags|
  {
    if tags != [] { EndLater(tags[1..], Pad(a + Size(tags[0]))); }
  }

  // What the kernel reads from the tags it kept.

  /** The fields that come from tags of type ty. */
  function Kept(info: Info, ty: int): (int, int, int) {
    if ty == MEMINFO then (info.memLower, info.memUpper, 0)
    else if ty == MMAP then (info.entrySize, info.mmap, info.mmapMax)
    else if ty == ELF then (info.elfTag, info.elfNum, info.elfSize)
    else (0, 0, 0)
  }

  /** Of several tags of one type the last one counts. */
  lemma {:induction false} LastOfKind(w: Words, at: seq<int>, i: nat)
    requires i < |at| && forall j :: i < j < |at| ==> w(at[j]) != w(at[i])
    ensures Kept(LearnAll(w, at), w(at[i])) == Kept(Learn(w, at[i], NOTHING), w(at[i]))
  {
    if i < |at| - 1 {
      LastOfKind(w, at[..|at| - 1], i);
    }
  }

  /** next_mb_mmap: the following entry, 0 after the last. */
  function NextMmap(entry: int, info: Info): int {
    if entry + info.entrySize < info.mmapMax then entry + info.entrySize else 0
  }

  function EntryAt(w: Words, a: int): Boot.Entry {
    Boot.Entry(Boot.Range(Long(w, a), (Long(w, a) + Long(w, a + 8)) % Boot.WORD), w(a + 16))
  }

  /** The entries from the one at a on: at least that one. */
  function Walk(w: Words, info: Info, a: int): seq<Boot.Entry>
    requires info.entrySize > 0
    decreases info.mmapMax - a
  {
    if a + info.entrySize < info.mmapMax then [EntryAt(w, a)] + Walk(w, info, a + info.entrySize)
    else [EntryAt(w, a)]
  }

  method ReadMap(w: Words, info: Info) returns (es: seq<Boot.Entry>)
    requires info.entrySize > 0 && info.mmap > 0
    ensures es == Walk(w, info, info.mmap)
  {
    var entry := info.mmap;
    es := [EntryAt(w, entry)];
    ghost var at := entry;
    entry := NextMmap(entry, info);
    while entry != 0
      invariant 0 < at && entry == NextMmap(at, info)
      invariant Walk(w, info, info.mmap) == es + if entry == 0 then [] else Walk(w, info, entry)
      decreases info.mmapMax - at
    {
      es := es + [EntryAt(w, entry)];
      at := entry;
      entry := NextMmap(entry, info);
    }
  }

  /** get_mb_elf_section, and the two fields of the header that are used. */
  function SectionAt(w: Words, info: Info, id: nat): Boot.Range {
    HeaderFields(w, info.elfTag + 20 + id * info.elfSize)
  }

  function HeaderFields(w: Words, a: int): Boot.Range {
    Boot.Range(Long(w, a + 16), (Long(w, a + 16) + Long(w, a + 32)) % Boot.WORD)
  }

  function Sections(w: Words, info: Info): seq<Boot.Range>
    requires info.elfNum >= 0
  {
    seq(info.elfNum, i requires 0 <= i < info.elfNum => SectionAt(w, info, i))
  }

  method ReadSections(w: Words, info: Info) returns (ss: seq<Boot.Range>)
    requires info.elfNum >= 0
    ensures ss == Sections(w, info)
  {
    ss := [];
    var i := 0;
    while i < info.elfNum
      invariant 0 <= i <= info.elfNum && ss == Sections(w, info)[..i]
    {
      ss := ss + [SectionAt(w, info, i)];
      i := i + 1;
    }
  }

  /** init_mem_regions on what parsing kept. */
  method InitMemRegions(w: Words, info: Info, frames: Frames.FrameAllocator) returns (warn: bool)
    requires info.entrySize > 0 && info.mmap > 0 && info.elfNum >= 0
    requires Boot.MapFits(Boot.Spans(Walk(w, info, info.mmap))) && Boot.SectionsFit(Sections(w, info))
    requires frames.Valid() && frames.memReg == [] && frames.memEx == []
    modifies frames`memReg, frames`memEx, frames`pool
    ensures frames.Valid() && frames.pool.freed == old(frames.pool.freed)
    ensures frames.memReg == Boot.BootRegions(Boot.Spans(Walk(w, info, info.mmap)))
    ensures frames.memEx == Boot.BootExcludes(Sections(w, info))
    ensures warn <==> info.elfNum < 2 || Boot.Misaligned(Boot.Chunks(Boot.Looked(Sections(w, info)), 4096))
  {
    var es := ReadMap(w, info);
    var ss := ReadSections(w, info);
    warn := Boot.InitMemRegions(es, ss, frames);
  }

  // The payloads of the two tags.

  /** An entry of the memory map: base, length, type and the rest of its bytes. */
  datatype MapEntry = MapEntry(base: nat, len: nat, ty: nat, rest: seq<int>)

  /** A section header: its address and size among the other bytes. */
  datatype Section = Section(before: seq<int>, vaddr: nat, between: seq<int>, fsize: nat, after: seq<int>)

  function Bounds(base: nat, len: nat): Boot.Range { Boot.Range(base, (base + len) % Boot.WORD) }

  ghost predicate ProperEntry(size: nat, e: MapEntry) {
    e.base < Boot.WORD && e.len < Boot.WORD && e.ty < 0x1_0000_0000 && 20 + |e.rest| == size
  }

  ghost predicate ProperSection(size: nat, s: Section) {
    && s.vaddr < Boot.WORD && s.fsize < Boot.WORD
    && |s.before| == 16 && |s.between| == 8 && 40 + |s.after| == size
  }

  function EntryBytes(e: MapEntry): (b: seq<int>)
    ensures |b| == 20 + |e.rest|
  {
    B64(e.base) + B64(e.len) + (B32(e.ty) + e.rest)
  }

  function EntriesBytes(es: seq<MapEntry>): seq<int> {
    if es == [] then [] else EntryBytes(es[0]) + EntriesBytes(es[1..])
  }

  function MapPayload(size: nat, version: nat, es: seq<MapEntry>): seq<int> {
    B32(size) + B32(version) + EntriesBytes(es)
  }

  function Decoded(e: MapEntry): Boot.Entry { Boot.Entry(Bounds(e.base, e.len), e.ty) }

  function Entries(es: seq<MapEntry>): seq<Boot.Entry> {
    if es == [] then [] else [Decoded(es[0])] + Entries(es[1..])
  }

  lemma ReadEntry(w: Words, m: Bytes, size: nat, e: MapEntry, a: int)
    requires Reads(w, m) && Holds(m, a, EntryBytes(e)) && ProperEntry(size, e)
    ensures EntryAt(w, a) == Decoded(e)
  {
    hide Reads, Holds;
    HoldsParts(m, a, B64(e.base) + B64(e.len), B32(e.ty) + e.rest);
    HoldsParts(m, a, B64(e.base), B64(e.len));
    HoldsParts(m, a + 16, B32(e.ty), e.rest);
    Read64(w, m, a, e.base);
    Read64(w, m, a + 8, e.len);
    Read32(w, m, a + 16, e.ty);
  }

  lemma WalkStep(w: Words, info: Info, a: int, left: nat)
    requires info.entrySize > 0
    requires info.mmapMax == a || info.mmapMax == a + info.entrySize + left
    ensures Walk(w, info, a) ==
            [EntryAt(w, a)] + if info.mmapMax > a && left > 0 then Walk(w, info, a + info.entrySize) else []
  {}

  lemma EntriesLength(es: seq<MapEntry>)
    ensures |EntriesBytes(es)| > 0 <==> es != []
  {}

  /** Walking the memory map enumerates exactly the encoded entries, in order and with
      their types, if and only if there is one: an empty map is read once, past its end. */
  lemma {:induction false} WalkExact(w: Words, m: Bytes, info: Info, es: seq<MapEntry>, a: int)
    requires info.entrySize >= 20 && forall e | e in es :: ProperEntry(info.entrySize, e)
    requires Reads(w, m) && Holds(m, a, EntriesBytes(es)) && info.mmapMax == a + |EntriesBytes(es)|
    ensures Walk(w, info, a) == (if es == [] then [EntryAt(w, a)] else Entries(es))
    ensures Walk(w, info, a) == Entries(es) <==> es != []
    decreases |es|
  {
    hide Reads, Holds;
    if es == [] {
      WalkStep(w, info, a, 0);
    } else {
      var size, rest := info.entrySize, |EntriesBytes(es[1..])|;
      FirstEntry(w, m, size, es, a);
      WalkStep(w, info, a, rest);
      EntriesLength(es[1..]);
      if |es| > 1 { WalkExact(w, m, info, es[1..], a + size); }
    }
  }

  lemma FirstEntry(w: Words, m: Bytes, size: nat, es: seq<MapEntry>, a: int)
    requires Reads(w, m) && es != [] && ProperEntry(size, es[0]) && Holds(m, a, EntriesBytes(es))
    ensures Holds(m, a + size, EntriesBytes(es[1..]))
    ensures |EntriesBytes(es)| == size + |EntriesBytes(es[1..])|
    ensures Entries(es) == [EntryAt(w, a)] + Entries(es[1..])
  {
    hide Reads, Holds;
    HoldsParts(m, a, EntryBytes(es[0]), EntriesBytes(es[1..]));
    ReadEntry(w, m, size, es[0], a);
  }

  function HeaderBytes(s: Section): seq<int> {
    s.before + B64(s.vaddr) + (s.between + B64(s.fsize) + s.after)
  }

  function HeadersBytes(ss: seq<Section>): seq<int> {
    if ss == [] then [] else HeaderBytes(ss[0]) + HeadersBytes(ss[1..])
  }

  function ElfPayload(size: nat, names: nat, ss: seq<Section>): seq<int> {
    B32(|ss|) + B32(size) + B32(names) + HeadersBytes(ss)
  }

  function Ranges(ss: seq<Section>): seq<Boot.Range> {
    seq(|ss|, i requires 0 <= i < |ss| => Bounds(ss[i].vaddr, ss[i].fsize))
  }

  lemma ReadHeader(w: Words, m: Bytes, size: nat, s: Section, a: int)
    requires Reads(w, m) && Holds(m, a, HeaderBytes(s)) && ProperSection(size, s)
    ensures HeaderFields(w, a) == Bounds(s.vaddr, s.fsize)
  {
    hide Reads, Holds;
    HoldsParts(m, a, s.before + B64(s.vaddr), s.between + B64(s.fsize) + s.after);
    HoldsParts(m, a, s.before, B64(s.vaddr));
    HoldsParts(m, a + 24, s.between + B64(s.fsize), s.after);
    HoldsParts(m, a + 24, s.between, B64(s.fsize));
    Read64(w, m, a + 16, s.vaddr);
    Read64(w, m, a + 32, s.fsize);
  }

  /** The id-th header comes id headers after a. */
  function Place(a: int, size: nat, id: nat): int
    decreases id
  {
    if id == 0 then a else Place(a + size, size, id - 1)
  }

  lemma {:induction false} PlaceExact(a: int, size: nat, id: nat)
    ensures Place(a, size, id) == a + id * size
    decreases id
  {
    if id > 0 {
      PlaceExact(a + size, size, id - 1);
      assert id * size == size + (id - 1) * size;
    }
  }

  lemma {:induction false} HeaderAt(w: Words, m: Bytes, size: nat, ss: seq<Section>, a: int, id: nat)
    requires id < |ss| && forall s | s in ss :: ProperSection(size, s)
    requires Reads(w, m) && Holds(m, a, HeadersBytes(ss))
    ensures HeaderFields(w, Place(a, size, id)) == Bounds(ss[id].vaddr, ss[id].fsize)
    decreases id
  {
    hide Reads, Holds, HeaderFields;
    HoldsParts(m, a, HeaderBytes(ss[0]), HeadersBytes(ss[1..]));
    assert ProperSection(size, ss[0]);
    if id > 0 {
      HeaderAt(w, m, size, ss[1..], a + size, id - 1);
    } else {
      ReadHeader(w, m, size, ss[0], a);
    }
  }

  lemma SectionExact(w: Words, m: Bytes, info: Info, ss: seq<Section>, id: nat)
    requires info.elfSize >= 0 && id < |ss| && forall s | s in ss :: ProperSection(info.elfSize, s)
    requires Reads(w, m) && Holds(m, info.elfTag + 20, HeadersBytes(ss))
    ensures SectionAt(w, info, id) == Bounds(ss[id].vaddr, ss[id].fsize)
  {
    hide Reads, Holds, HeaderFields, HeadersBytes, ProperSection, SectionAt, Place;
    HeaderAt(w, m, info.elfSize, ss, info.elfTag + 20, id);
    SectionPlace(w, info, id);
  }

  lemma SectionPlace(w: Words, info: Info, id: nat)
    requires info.elfSize >= 0
    ensures SectionAt(w, info, id) == HeaderFields(w, Place(info.elfTag + 20, info.elfSize, id))
  {
    hide HeaderFields, Place;
    PlaceExact(info.elfTag + 20, info.elfSize, id);
  }

  /** get_mb_elf_section finds the header of every section. */
  lemma SectionsExact(w: Words, m: Bytes, info: Info, ss: seq<Section>)
    requires info.elfSize >= 0 && info.elfNum == |ss| && forall s | s in ss :: ProperSection(info.elfSize, s)
    requires Reads(w, m) && Holds(m, info.elfTag + 20, HeadersBytes(ss))
    ensures Sections(w, info) == Ranges(ss)
  {
    hide Reads, Holds, SectionAt;
    forall i | 0 <= i < |ss| ensures SectionAt(w, info, i) == Ranges(ss)[i] {
      SectionExact(w, m, info, ss, i);
    }
  }

  /** A serialised tag list in memory from the 8-byte aligned address a on. */
  ghost predicate Image(w: Words, m: Bytes, tags: seq<Tag>, a: int) {
    a % 8 == 0 && Reads(w, m) && Holds(m, a, Stream(tags)) && forall t :: t in tags ==> Proper(t)
  }

  /** Every tag list made of bytes is somewhere in some memory. */
  lemma ImageExists(tags: seq<Tag>, a: int) returns (w: Words, m: Bytes)
    requires a % 8 == 0 && forall t :: t in tags ==> Proper(t)
    requires forall b | b in Stream(tags) :: 0 <= b < 0x100
    ensures Image(w, m, tags, a)
  {
    hide Stream, Le32;
    var s := Stream(tags);
    var mem := x => if a <= x < a + |s| then s[x - a] else 0;
    forall x ensures mem(x) >= 0 {
      if a <= x < a + |s| { assert s[x - a] in s; }
    }
    m, w := mem, x => if Le32(mem, x) >= 0 then Le32(mem, x) else 0;
    forall x ensures w(x) == Le32(mem, x) { WordPositive(mem, x); }
  }

  lemma WordPositive(m: Bytes, a: int)
    requires forall x :: m(x) >= 0
    ensures Le32(m, a) >= 0
  {}

  /** Tag i is the last memory map, with the entries es. */
  ghost predicate LastMap(tags: seq<Tag>, i: nat, size: nat, version: nat, es: seq<MapEntry>) {
    && i < |tags| && tags[i].ty == MMAP && tags[i].payload == MapPayload(size, version, es)
    && (forall k :: i < k < |tags| ==> tags[k].ty != MMAP)
    && 20 <= size < 0x1_0000_0000 && es != [] && forall e | e in es :: ProperEntry(size, e)
  }

  /** Tag i is the last list of ELF sections, with the headers of ss. */
  ghost predicate LastElf(tags: seq<Tag>, i: nat, size: nat, names: nat, ss: seq<Section>) {
    && i < |tags| && tags[i].ty == ELF && tags[i].payload == ElfPayload(size, names, ss)
    && (forall k :: i < k < |tags| ==> tags[k].ty != ELF)
    && size < 0x1_0000 && |ss| < 0x1_0000 && forall s | s in ss :: ProperSection(size, s)
  }

  /** From the bytes the loader left to what the start-up code works on: the kernel
      sees exactly the entries of the last memory map tag. */
  lemma MapSeen(w: Words, m: Bytes, tags: seq<Tag>, a: int, i: nat, size: nat, version: nat, es: seq<MapEntry>)
    requires Image(w, m, tags, a) && LastMap(tags, i, size, version, es)
    ensures var info := LearnAll(w, Places(tags, a));
            info.entrySize == size && info.mmap >= a + 16 && Walk(w, info, info.mmap) == Entries(es)
  {
    hide Reads, Holds;
    var at := Places(tags, a);
    PlacesHold(w, m, tags, a);
    LastTag(w, tags, at, i);
    assert tags[i] in tags;
    MapTag(w, m, tags[i], at[i], size, version, es, LearnAll(w, at));
  }

  /** And exactly the sections of the last ELF tag. */
  lemma SectionsSeen(w: Words, m: Bytes, tags: seq<Tag>, a: int, i: nat, size: nat, names: nat, ss: seq<Section>)
    requires Image(w, m, tags, a) && LastElf(tags, i, size, names, ss)
    ensures var info := LearnAll(w, Places(tags, a));
            info.elfNum == |ss| && Sections(w, info) == Ranges(ss)
  {
    hide Reads, Holds;
    var at := Places(tags, a);
    PlacesHold(w, m, tags, a);
    LastTag(w, tags, at, i);
    assert tags[i] in tags;
    ElfTag(w, m, tags[i], at[i], size, names, ss, LearnAll(w, at));
  }

  /** From the header on, the loader's bytes are a tag list whose last memory map holds
      es and whose last list of sections holds ss. */
  ghost predicate Describes(w: Words, m: Bytes, header: nat, tags: seq<Tag>, es: seq<MapEntry>, ss: seq<Section>) {
    && Image(w, m, tags, Pad(header + 8)) && EndOf(tags, Pad(header + 8)) < header + w(header)
    && (exists i, size, version :: LastMap(tags, i, size, version, es))
    && (exists i, size, names :: LastElf(tags, i, size, names, ss))
  }

  /** Parsing such bytes ends at the end tag, and keeps what gives exactly es and ss. */
  lemma Described(w: Words, m: Bytes, header: nat, tags: seq<Tag>, es: seq<MapEntry>, ss: seq<Section>)
    requires Describes(w, m, header, tags, es, ss)
    ensures Visits(w, Pad(header + 8), header + w(header), Places(tags, Pad(header + 8)), AtEndTag)
    ensures var info := LearnAll(w, Places(tags, Pad(header + 8)));
            && info.entrySize > 0 && info.mmap > 0 && Walk(w, info, info.mmap) == Entries(es)
            && info.elfNum == |ss| && Sections(w, info) == Ranges(ss)
  {
    hide Image, LastMap, LastElf, LearnAll, Visits, Walk, Sections;
    var a := Pad(header + 8);
    ImageParts(w, m, tags, a);
    VisitStream(w, m, tags, a, header + w(header));
    var i, size, version :| LastMap(tags, i, size, version, es);
    MapSize(tags, i, size, version, es);
    MapSeen(w, m, tags, a, i, size, version, es);
    var j, size', names :| LastElf(tags, j, size', names, ss);
    SectionsSeen(w, m, tags, a, j, size', names, ss);
  }

  lemma ImageParts(w: Words, m: Bytes, tags: seq<Tag>, a: int)
    requires Image(w, m, tags, a)
    ensures a % 8 == 0 && Reads(w, m) && Holds(m, a, Stream(tags)) && forall t :: t in tags ==> Proper(t)
  {}

  lemma MapSize(tags: seq<Tag>, i: nat, size: nat, version: nat, es: seq<MapEntry>)
    requires LastMap(tags, i, size, version, es)
    ensures size > 0
  {}

  /** What is visited is determined. */
  lemma VisitsOnce(w: Words, pos: int, max: int, at: seq<int>, ending: Ending, at': seq<int>, ending': Ending)
    requires Visits(w, pos, max, at, ending) && Visits(w, pos, max, at', ending')
    ensures at' == at && ending' == ending
  {}

  /** And the two sizes of the last basic memory information tag. */
  lemma MemInfoSeen(w: Words, m: Bytes, tags: seq<Tag>, a: int, i: nat, lower: nat, upper: nat)
    requires Image(w, m, tags, a) && i < |tags| && forall k :: i < k < |tags| ==> tags[k].ty != tags[i].ty
    requires tags[i].ty == MEMINFO && tags[i].payload == B32(lower) + B32(upper)
    requires lower < 0x1_0000_0000 && upper < 0x1_0000_0000
    ensures var info := LearnAll(w, Places(tags, a)); info.memLower == lower && info.memUpper == upper
  {
    hide Reads, Holds, B32;
    var at := Places(tags, a);
    PlacesHold(w, m, tags, a);
    LastTag(w, tags, at, i);
    assert tags[i] in tags;
    ReadTag(w, m, at[i], tags[i]);
    HoldsParts(m, at[i] + 8, B32(lower), B32(upper));
    Read32(w, m, at[i] + 8, lower);
    Read32(w, m, at[i] + 12, upper);
  }

  /** The kernel's entries cover exactly the bytes the loader's entries do, type for type,
      if none of those runs past the last address. */
  lemma EntriesCover(es: seq<MapEntry>, x: int, ty: int)
    requires forall e | e in es :: e.base + e.len < Boot.WORD
    ensures (exists i | 0 <= i < |Entries(es)| :: Entries(es)[i].ty == ty
               && Entries(es)[i].range.start <= x < Entries(es)[i].range.end)
            <==> exists i | 0 <= i < |es| :: es[i].ty == ty && es[i].base <= x < es[i].base + es[i].len
  {
    EntryAtIndex(es);
    if i :| 0 <= i < |es| && es[i].ty == ty && es[i].base <= x < es[i].base + es[i].len {
      assert Entries(es)[i] == Decoded(es[i]) && es[i] in es;
    }
  }

  /** Every entry keeps its place, type and start; its end is a 64-bit sum. */
  lemma {:induction false} EntryAtIndex(es: seq<MapEntry>)
    ensures |Entries(es)| == |es| && forall i :: 0 <= i < |es| ==> Entries(es)[i] == Decoded(es[i])
    ensures forall i :: 0 <= i < |es| && es[i].base < Boot.WORD && es[i].len < Boot.WORD ==>
              && Entries(es)[i].ty == es[i].ty && Entries(es)[i].range.start == es[i].base
              && Entries(es)[i].range.end ==
                 es[i].base + es[i].len - if es[i].base + es[i].len < Boot.WORD then 0 else Boot.WORD
  {
    if es != [] { EntryAtIndex(es[1..]); }
  }

  /** And its sections lie where the loader's headers say. */
  lemma SectionCovers(ss: seq<Section>, i: nat, x: int)
    requires i < |ss| && ss[i].vaddr < Boot.WORD && ss[i].fsize < Boot.WORD
    ensures Ranges(ss)[i].start == ss[i].vaddr
    ensures Ranges(ss)[i].end ==
            ss[i].vaddr + ss[i].fsize - if ss[i].vaddr + ss[i].fsize < Boot.WORD then 0 else Boot.WORD
    ensures ss[i].vaddr + ss[i].fsize < Boot.WORD ==>
              (Ranges(ss)[i].start <= x < Ranges(ss)[i].end <==> ss[i].vaddr <= x < ss[i].vaddr + ss[i].fsize)
  {}

  /** Of the number of sections and of a header's size the kernel keeps 16 bits. */
  lemma ElfCounts(w: Words, m: Bytes, tags: seq<Tag>, a: int, i: nat, size: nat, names: nat, ss: seq<Section>)
    requires Image(w, m, tags, a) && i < |tags| && forall k :: i < k < |tags| ==> tags[k].ty != tags[i].ty
    requires tags[i].ty == ELF && tags[i].payload == ElfPayload(size, names, ss)
    requires size < 0x1_0000_0000 && |ss| < 0x1_0000_0000
    ensures var info := LearnAll(w, Places(tags, a));
            && |Places(tags, a)| == |tags| && info.elfTag == Places(tags, a)[i]
            && info.elfNum == |ss| % 0x1_0000 && info.elfSize == size % 0x1_0000
  {
    hide Reads, Holds, HeadersBytes;
    var at := Places(tags, a);
    PlacesHold(w, m, tags, a);
    LastTag(w, tags, at, i);
    assert tags[i] in tags;
    ReadTag(w, m, at[i], tags[i]);
    ElfFields(w, m, at[i] + 8, size, names, ss);
  }

  lemma LastTag(w: Words, tags: seq<Tag>, at: seq<int>, i: nat)
    requires |at| == |tags| && i < |at| && forall k :: 0 <= k < |tags| ==> w(at[k]) == tags[k].ty
    requires forall k :: i < k < |tags| ==> tags[k].ty != tags[i].ty
    ensures Kept(LearnAll(w, at), tags[i].ty) == Kept(Learn(w, at[i], NOTHING), tags[i].ty)
  {
    forall k | i < k < |at| ensures w(at[k]) != w(at[i]) { assert w(at[k]) == tags[k].ty; }
    LastOfKind(w, at, i);
  }

  /** Every tag lies where Places says. */
  lemma {:induction false} PlacesHold(w: Words, m: Bytes, tags: seq<Tag>, a: int)
    requires Reads(w, m) && Holds(m, a, Stream(tags)) && a % 8 == 0 && forall t :: t in tags ==> Proper(t)
    ensures |Places(tags, a)| == |tags|
    ensures forall k :: 0 <= k < |tags| ==>
              && Holds(m, Places(tags, a)[k], Encode(tags[k])) && w(Places(tags, a)[k]) == tags[k].ty
              && Places(tags, a)[k] >= a
    decreases |tags|
  {
    hide Reads, Holds;
    if tags != [] {
      StreamParts(m, tags, a);
      ReadTag(w, m, a, tags[0]);
      PlacesHold(w, m, tags[1..], Pad(a + Size(tags[0])));
    }
  }

  lemma MapTag(w: Words, m: Bytes, t: Tag, a: int, size: nat, version: nat, es: seq<MapEntry>, info: Info)
    requires 20 <= size < 0x1_0000_0000 && es != [] && forall e | e in es :: ProperEntry(size, e)
    requires Reads(w, m) && Holds(m, a, Encode(t)) && Proper(t)
    requires t.ty == MMAP && t.payload == MapPayload(size, version, es)
    requires Kept(info, MMAP) == Kept(Learn(w, a, NOTHING), MMAP)
    ensures info.entrySize == size && info.mmap == a + 16 && Walk(w, info, info.mmap) == Entries(es)
  {
    hide Reads, Holds;
    ReadTag(w, m, a, t);
    var entries := EntriesBytes(es);
    HoldsParts(m, a + 8, B32(size) + B32(version), entries);
    HoldsParts(m, a + 8, B32(size), B32(version));
    Read32(w, m, a + 8, size);
    MapLearned(w, a, info, size, 16 + |entries|);
    WalkExact(w, m, info, es, a + 16);
  }

  lemma MapLearned(w: Words, a: int, info: Info, size: nat, len: nat)
    requires w(a) == MMAP && w(a + 4) == len && w(a + 8) == size
    requires Kept(info, MMAP) == Kept(Learn(w, a, NOTHING), MMAP)
    ensures info.entrySize == size && info.mmap == a + 16 && info.mmapMax == a + len
  {}

  lemma ElfFields(w: Words, m: Bytes, a: int, size: nat, names: nat, ss: seq<Section>)
    requires size < 0x1_0000_0000 && |ss| < 0x1_0000_0000 && Reads(w, m)
    requires Holds(m, a, ElfPayload(size, names, ss))
    ensures w(a) == |ss| && w(a + 4) == size && Holds(m, a + 12, HeadersBytes(ss))
  {
    hide Reads, Holds, B32, HeadersBytes;
    HoldsParts(m, a, B32(|ss|) + B32(size) + B32(names), HeadersBytes(ss));
    HoldsParts(m, a, B32(|ss|) + B32(size), B32(names));
    HoldsParts(m, a, B32(|ss|), B32(size));
    Read32(w, m, a, |ss|);
    Read32(w, m, a + 4, size);
  }

  lemma ElfLearned(w: Words, a: int, info: Info, num: nat, size: nat)
    requires w(a) == ELF && w(a + 8) == num < 0x1_0000 && w(a + 12) == size < 0x1_0000
    requires Kept(info, ELF) == Kept(Learn(w, a, NOTHING), ELF)
    ensures info.elfTag == a && info.elfNum == num && info.elfSize == size
  {}

  lemma ElfTag(w: Words, m: Bytes, t: Tag, a: int, size: nat, names: nat, ss: seq<Section>, info: Info)
    requires size < 0x1_0000 && |ss| < 0x1_0000 && (forall s | s in ss :: ProperSection(size, s))
    requires Reads(w, m) && Holds(m, a, Encode(t)) && Proper(t)
    requires t.ty == ELF && t.payload == ElfPayload(size, names, ss)
    requires Kept(info, ELF) == Kept(Learn(w, a, NOTHING), ELF)
    ensures info.elfNum == |ss| && Sections(w, info) == Ranges(ss)
  {
    hide Reads, Holds;
    ReadTag(w, m, a, t);
    ElfFields(w, m, a + 8, size, names, ss);
    ElfLearned(w, a, info, |ss|, size);
    SectionsExact(w, m, info, ss);
  }
}
