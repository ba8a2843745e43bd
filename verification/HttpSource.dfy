/** `HttpMediaSource` (`engine/src/audio/http_source.rs`): a seekable byte source over HTTP
    range requests with an LRU of 64 KiB pages, proved to behave as a cursor over the flat file. */
module HttpSource {
  import opened Wrappers
  import opened HttpPages

  datatype IoError = HttpGet | HttpStatus(code: nat) | UnexpectedEof | Unsupported

  datatype SeekFrom = Start(n: nat) | End(delta: int) | Current(delta: int)

  // ---------------------------------------------------------------- slicing a body into pages

  /** Drop any page with the same start, then add the new page as most recent. */
  function Inserted(pages: seq<Page>, p: Page): seq<Page> {
    if pages == [] then [p]
    else if pages[0].start == p.start then pages[1..] + [p]
    else [pages[0]] + Inserted(pages[1..], p)
  }

  /** `slice_into_pages`. */
  function Sliced(start: nat, body: seq<byte>, pages: seq<Page>): seq<Page>
    decreases |body|
  {
    if body == [] then pages
    else
      var take := Min(PAGE_SIZE, |body|);
      Sliced(start + take, body[take..], Inserted(pages, Page(start, body[..take])))
  }

  /** The page starts a body of `len` bytes at `start` is sliced at. */
  function SliceStarts(start: nat, len: nat): seq<nat>
    decreases len
  {
    if len == 0 then [] else [start] + SliceStarts(start + Min(PAGE_SIZE, len), len - Min(PAGE_SIZE, len))
  }

  lemma {:induction false} InsertedStarts(pages: seq<Page>, p: Page)
    requires Distinct(Starts(pages))
    ensures Starts(Inserted(pages, p)) == Touch(Starts(pages), p.start)
    ensures forall q :: q in Inserted(pages, p) ==> q in pages || q == p
  {
    if pages == [] {
    } else {
      var s, rest := Starts(pages), Starts(pages[1..]);
      assert s[0] == pages[0].start && s[1..] == rest;
      assert forall i :: 0 <= i < |rest| ==> s[0] != rest[i];
      if pages[0].start == p.start {
        WithoutAbsent(rest, p.start);
        assert Starts(pages[1..] + [p]) == rest + [p.start];
      } else {
        InsertedStarts(pages[1..], p);
        hide Distinct;
        assert Starts([pages[0]] + Inserted(pages[1..], p)) == [s[0]] + Touch(rest, p.start);
      }
    }
  }

  lemma {:induction false} InsertedAt(pages: seq<Page>, p: Page, i: nat)
    requires i <= |pages| && (forall k :: 0 <= k < i ==> pages[k].start != p.start)
    requires i < |pages| ==> pages[i].start == p.start
    ensures Inserted(pages, p) == (if i < |pages| then pages[..i] + pages[i + 1..] else pages) + [p]
  {
    if i > 0 { InsertedAt(pages[1..], p, i - 1); }
  }

  lemma InsertedCoherent(file: seq<byte>, pages: seq<Page>, p: Page)
    requires Coherent(file, pages) && PageOf(file, p)
    ensures Coherent(file, Inserted(pages, p))
  {
    InsertedStarts(pages, p);
    TouchDistinct(Starts(pages), p.start);
    var after := Inserted(pages, p);
    forall i | 0 <= i < |after|
      ensures PageOf(file, after[i])
    {
      assert after[i] in after;
    }
  }

  /** The first page `slice_into_pages` cuts off `file[lo..hi]`. */
  function FirstPage(file: seq<byte>, lo: nat, hi: nat): Page
    requires lo < hi <= |file|
  {
    Page(lo, file[lo..lo + Min(PAGE_SIZE, hi - lo)])
  }

  lemma SliceStep(file: seq<byte>, lo: nat, hi: nat, pages: seq<Page>)
    requires lo < hi <= |file|
    ensures var next := lo + Min(PAGE_SIZE, hi - lo);
            Sliced(lo, file[lo..hi], pages) == Sliced(next, file[next..hi], Inserted(pages, FirstPage(file, lo, hi)))
            && SliceStarts(lo, hi - lo) == [lo] + SliceStarts(next, hi - next)
  {
    var body, take := file[lo..hi], Min(PAGE_SIZE, hi - lo);
    assert body[take..] == file[lo + take..hi] && body[..take] == file[lo..lo + take];
  }

  /** Slicing `file[lo..hi]` at an aligned `lo`, up to a page boundary or the end of the file,
      keeps the cache coherent and touches the pages in order. */
  lemma {:induction false} SlicedCoherent(file: seq<byte>, lo: nat, hi: nat, pages: seq<Page>)
    requires Coherent(file, pages) && lo <= hi <= |file| && (lo == hi || lo % PAGE_SIZE == 0)
    requires hi % PAGE_SIZE == 0 || hi == |file|
    ensures Coherent(file, Sliced(lo, file[lo..hi], pages))
    ensures Starts(Sliced(lo, file[lo..hi], pages)) == TouchAll(Starts(pages), SliceStarts(lo, hi - lo))
    decreases hi - lo
  {
    if lo < hi {
      var p, next := FirstPage(file, lo, hi), lo + Min(PAGE_SIZE, hi - lo);
      assert PageOf(file, p);
      SliceStep(file, lo, hi, pages);
      InsertedCoherent(file, pages, p);
      InsertedStarts(pages, p);
      hide Inserted, Touch, Coherent, PageOf, Sliced, SliceStarts;
      SlicedCoherent(file, next, hi, Inserted(pages, p));
      var rest := SliceStarts(next, hi - next);
      assert ([lo] + rest)[1..] == rest;
    } else {
      assert file[lo..hi] == [];
    }
  }

  lemma {:induction false} SliceStartsFacts(start: nat, len: nat)
    ensures |SliceStarts(start, len)| <= (len + PAGE_SIZE - 1) / PAGE_SIZE
    ensures start % PAGE_SIZE == 0 ==>
              forall o :: start <= o < start + len ==> AlignDown(o) in SliceStarts(start, len)
    decreases len
  {
    if len > 0 {
      SliceStartsFacts(start + Min(PAGE_SIZE, len), len - Min(PAGE_SIZE, len));
    }
  }

  // ---------------------------------------------------------------- the flat cursor it refines

  /** How many bytes one read delivers: up to the end of the buffer, the page, or the file. */
  function ReadLen(len: nat, pos: nat, want: nat): (n: nat)
    ensures n <= want && (pos >= len ==> n == 0) && (pos < len ==> pos + n <= len)
    ensures n == 0 <==> want == 0 || pos >= len
    ensures n > 0 ==> n == want || pos + n == len || (pos + n) % 65536 == 0
    ensures n > 0 ==> (pos + n - 1) / 65536 == pos / 65536
  {
    if pos >= len then 0 else Min(want, Min(PAGE_SIZE - pos % PAGE_SIZE, len - pos))
  }

  /** The position a seek asks for, and its clamp to what a u64 can hold. */
  function SeekTarget(len: nat, pos: nat, to: SeekFrom): int {
    match to case Start(n) => n case End(delta) => len + delta case Current(delta) => pos + delta
  }

  function ClampU64(x: int): nat { if x < 0 then 0 else Min(x, U64_MAX) }

  datatype Op = ReadOp(want: nat) | SeekOp(to: SeekFrom)

  predicate OpOk(op: Op) {
    op.SeekOp? ==> match op.to
      case Start(n) => n <= U64_MAX
      case _ => -0x8000_0000_0000_0000 <= op.to.delta <= 0x7FFF_FFFF_FFFF_FFFF
  }

  /** What one operation delivers and where it leaves the cursor, on the flat file. */
  function FlatOutput(file: seq<byte>, pos: nat, op: Op): seq<byte> {
    if op.ReadOp? && pos < |file| then file[pos..pos + ReadLen(|file|, pos, op.want)] else []
  }

  function FlatMove(file: seq<byte>, pos: nat, op: Op): nat {
    match op
    case ReadOp(want) => pos + ReadLen(|file|, pos, want)
    case SeekOp(to) => ClampU64(SeekTarget(|file|, pos, to))
  }

  function FlatOutputs(file: seq<byte>, pos: nat, ops: seq<Op>): seq<seq<byte>>
    decreases |ops|
  {
    if ops == [] then []
    else [FlatOutput(file, pos, ops[0])] + FlatOutputs(file, FlatMove(file, pos, ops[0]), ops[1..])
  }

  function FlatEnd(file: seq<byte>, pos: nat, ops: seq<Op>): nat
    decreases |ops|
  {
    if ops == [] then pos else FlatEnd(file, FlatMove(file, pos, ops[0]), ops[1..])
  }

  // ---------------------------------------------------------------- the source

  /** The cache after `touched`: coherent, in recency order, and on a range server exactly the
      16 most recent pages; a whole-file server filled it once with everything. */
  ghost predicate CacheOk(server: Server, pages: seq<Page>, touched: seq<nat>) {
    && Coherent(server.file, pages)
    && (server.Ranged? ==> Starts(pages) == LastN(Recency(touched), MAX_CACHED_PAGES))
    && (server.Whole? ==> Starts(pages) == Recency(touched) && AllCached(server.file, pages))
  }

  ghost predicate AllCached(file: seq<byte>, pages: seq<Page>) {
    forall o :: 0 <= o < |file| ==> AlignDown(o) in Starts(pages)
  }

  /** The pages an access at `offset` touches, hit or fetched, in order. */
  function AccessTouches(pages: seq<Page>, offset: nat, len: nat): seq<nat>
    requires offset < len
  {
    var start := AlignDown(offset);
    if start in Starts(pages) then [start]
    else SliceStarts(start, Min(start + 4 * PAGE_SIZE, len) - start)
  }

  lemma {:induction false} SliceStartsAt(start: nat, len: nat, i: nat)
    requires i < |SliceStarts(start, len)|
    ensures SliceStarts(start, len)[i] == start + 65536 * i
    ensures 65536 * i < len && (i + 1 == |SliceStarts(start, len)| <==> 65536 * (i + 1) >= len)
    decreases len
  {
    var take := Min(PAGE_SIZE, len);
    if i > 0 {
      SliceStartsAt(start + take, len - take, i - 1);
    } else if len > take {
      assert SliceStarts(start + take, len - take) != [];
    }
  }

  /** A hit touches the page of the offset alone; a miss that page and those after it, four in all
      or up to the end of the file. */
  lemma {:induction false} AccessTouchesMeaning(pages: seq<Page>, offset: nat, len: nat)
    requires offset < len
    ensures var t, first := AccessTouches(pages, offset, len), offset - offset % 65536;
            && 1 <= |t| <= 4 && (forall i :: 0 <= i < |t| ==> t[i] == first + 65536 * i && t[i] < len)
            && (if exists i :: 0 <= i < |pages| && pages[i].start == first then |t| == 1
                else |t| == 4 || first + 65536 * |t| >= len)
  {
    var t, first := AccessTouches(pages, offset, len), AlignDown(offset);
    assert first == offset - offset % 65536;
    if i :| 0 <= i < |pages| && pages[i].start == first { assert Starts(pages)[i] == first; }
    if first !in Starts(pages) {
      var size := Min(first + 4 * PAGE_SIZE, len) - first;
      assert t == SliceStarts(first, size) && t != [];
      hide AccessTouches, SliceStarts;
      forall i | 0 <= i < |t| ensures t[i] == first + 65536 * i && 65536 * i < size { SliceStartsAt(first, size, i); }
      SliceStartsAt(first, size, |t| - 1);
    }
  }

  class HttpMediaSource {
    const server: Server
    var pos: nat
    var totalLen: Option<nat>
    var acceptRanges: bool
    var pages: seq<Page>
    /** Every page touched so far, in order. */
    ghost var touched: seq<nat>

    ghost predicate Valid()
      reads this
    {
      && |server.file| + PREFETCH_BYTES <= U64_MAX && pos <= U64_MAX
      && totalLen == Some(|server.file|)
      && acceptRanges == (server.Ranged? || server.advertises)
      && CacheOk(server, pages, touched)
    }

    constructor Prefetched(server: Server, resp: Response)
      requires |server.file| + PREFETCH_BYTES <= U64_MAX
      requires resp == Respond(server, 0, PREFETCH_BYTES - 1) && Success(resp.status)
      ensures Valid() && pos == 0 && this.server == server
      ensures forall o :: 0 <= o < |server.file| && o < 262144 ==> AlignDown(o) in Starts(pages)
    {
      this.server := server;
      pos, totalLen := 0, TotalLength(resp);
      acceptRanges := resp.acceptRanges || resp.status == 206;
      pages := [];
      new;
      PrefetchPages(server);
      hide CacheOk;
      SliceIntoPages(0, resp.body);
      touched := SliceStarts(0, |resp.body|);
    }

    /** Open the file with a warm-up request, which leaves its first 256 KiB in the cache. */
    static method Open(server: Server, link: Link) returns (r: Result<HttpMediaSource, IoError>)
      requires |server.file| + PREFETCH_BYTES <= U64_MAX && LinkOk(link)
      ensures r.Ok? ==> fresh(r.value) && r.value.Valid() && r.value.pos == 0 && r.value.server == server
      ensures r.Ok? ==>
                forall o :: 0 <= o < |server.file| && o < 262144 ==> AlignDown(o) in Starts(r.value.pages)
      ensures r.Err? <==> link != Up || (server.Ranged? && server.file == [])
    {
      var resp := RangedGet(server, link, 0, PREFETCH_BYTES - 1);
      if resp == None {
        return Err(HttpGet);
      }
      if !Success(resp.value.status) {
        return Err(HttpStatus(resp.value.status));
      }
      var source := new HttpMediaSource.Prefetched(server, resp.value);
      return Ok(source);
    }

    method SliceIntoPages(start: nat, body: seq<byte>)
      modifies `pages
      ensures pages == Sliced(start, body, old(pages))
    {
      var offset := 0;
      assert body[0..] == body;
      while offset < |body|
        invariant offset <= |body|
        invariant Sliced(start + offset, body[offset..], pages) == Sliced(start, body, old(pages))
      {
        var take := Min(PAGE_SIZE, |body| - offset);
        assert body[offset..][..take] == body[offset..offset + take];
        assert body[offset..][take..] == body[offset + take..];
        InsertPage(Page(start + offset, body[offset..offset + take]));
        offset := offset + take;
      }
      assert body[offset..] == [];
    }

    method InsertPage(p: Page)
      modifies `pages
      ensures pages == Inserted(old(pages), p)
    {
      var i := 0;
      while i < |pages| && pages[i].start != p.start
        invariant i <= |pages| && forall k :: 0 <= k < i ==> pages[k].start != p.start
      {
        i := i + 1;
      }
      InsertedAt(pages, p, i);
      if i < |pages| {
        pages := pages[..i] + pages[i + 1..];
      }
      pages := pages + [p];
    }

    /** The index of the first page that covers `offset`. */
    method FindPage(offset: nat) returns (hit: Option<nat>)
      ensures hit.Some? ==> hit.value < |pages| && Covers(pages[hit.value], offset)
      ensures hit == None ==> forall i :: 0 <= i < |pages| ==> !Covers(pages[i], offset)
    {
      for i := 0 to |pages|
        invariant forall j :: 0 <= j < i ==> !Covers(pages[j], offset)
      {
        if Covers(pages[i], offset) {
          return Some(i);
        }
      }
      return None;
    }

    /** A hit page moves to the back of the queue, unless it is there already. */
    method Promote(at: nat)
      requires at < |pages|
      modifies `pages
      ensures pages == Promoted(old(pages), at) && pages[|pages| - 1] == old(pages)[at]
    {
      if at + 1 != |pages| {
        pages := pages[..at] + pages[at + 1..] + [pages[at]];
      } else {
        assert pages == pages[..at] + pages[at + 1..] + [pages[at]];
      }
    }

    method CacheLookup(offset: nat) returns (hit: Option<(nat, nat)>)
      requires Valid() && offset < |server.file|
      modifies `pages, `touched
      ensures Valid()
      ensures hit.Some? <==> AlignDown(offset) in Starts(old(pages))
      ensures hit == None ==> pages == old(pages) && touched == old(touched)
      ensures hit.Some? ==>
                && touched == old(touched) + [AlignDown(offset)]
                && hit.value.0 < |pages| && pages[hit.value.0].start == AlignDown(offset)
                && hit.value.1 == offset - AlignDown(offset)
    {
      var found := FindPage(offset);
      HitIffCovered(server, pages, touched, offset);
      hide CacheOk, Covers;
      if found == None {
        return None;
      }
      PromoteIsTouch(server, pages, found.value, touched);
      Promote(found.value);
      touched := touched + [pages[|pages| - 1].start];
      hit := Some((|pages| - 1, offset - pages[|pages| - 1].start));
    }

    /** Fetch up to four pages from the one that holds `offset` and trim the cache to its limit. */
    method FetchAround(offset: nat, link: Link) returns (r: Result<nat, IoError>)
      requires Valid() && offset < |server.file| && AlignDown(offset) !in Starts(pages) && LinkOk(link)
      modifies `pages, `touched, `totalLen
      ensures Valid()
      ensures r.Err? <==> link != Up
      ensures r.Err? ==> pages == old(pages) && touched == old(touched)
      ensures r.Ok? ==>
                && touched == old(touched) + AccessTouches(old(pages), offset, |server.file|)
                && r.value < |pages| && pages[r.value].start == AlignDown(offset)
    {
      FetchedChunk(server, pages, touched, offset);
      hide CacheOk, FetchChunk;
      var pageStart := offset / PAGE_SIZE * PAGE_SIZE;
      var chunkEnd := pageStart + PAGE_SIZE * 4 - 1;
      if totalLen.Some? && totalLen.value > 0 {
        chunkEnd := Min(chunkEnd, totalLen.value - 1);
      }
      if chunkEnd < pageStart {
        return Err(UnexpectedEof);
      }
      var resp := RangedGet(server, link, pageStart, chunkEnd);
      if resp == None {
        return Err(HttpGet);
      }
      if !Success(resp.value.status) {
        return Err(HttpStatus(resp.value.status));
      }
      var answer := resp.value;
      totalLen := if totalLen == None then TotalLength(answer) else totalLen;
      StoreChunk(offset, pageStart, answer.body);
      HitIffCovered(server, pages, touched, offset);
      var found := FindPage(offset);
      r := Ok(found.value);
    }

    /** Slice a fetched chunk into the cache and trim. */
    method StoreChunk(ghost offset: nat, pageStart: nat, body: seq<byte>)
      requires Valid() && offset < |server.file| && AlignDown(offset) !in Starts(pages)
      requires pageStart == AlignDown(offset) && body == FetchChunk(server.file, offset)
      modifies `pages, `touched
      ensures Valid() && pageStart in Starts(pages)
      ensures touched == old(touched) + AccessTouches(old(pages), offset, |server.file|)
    {
      hide CacheOk, FetchChunk, AccessTouches, AlignDown, Sliced, LastPages;
      FetchIsTouches(server, pages, touched, offset);
      SliceIntoPages(pageStart, body);
      TrimLru();
      touched := touched + AccessTouches(old(pages), offset, |server.file|);
    }

    method TrimLru()
      modifies `pages
      ensures pages == LastPages(old(pages))
    {
      while |pages| > MAX_CACHED_PAGES
        invariant |pages| >= Min(|old(pages)|, MAX_CACHED_PAGES)
        invariant |pages| <= |old(pages)| && pages == old(pages)[|old(pages)| - |pages|..]
      {
        pages := pages[1..];
      }
    }

    /** Find the page of the cursor, in the cache or by a fetch. */
    method PageAtCursor(link: Link) returns (r: Result<(nat, nat), IoError>)
      requires Valid() && pos < |server.file| && LinkOk(link)
      modifies `pages, `touched, `totalLen
      ensures Valid()
      ensures r.Err? ==> link != Up && pages == old(pages) && touched == old(touched)
      ensures r.Ok? ==>
                && touched == old(touched) + AccessTouches(old(pages), pos, |server.file|)
                && r.value.0 < |pages| && pages[r.value.0].start == AlignDown(pos)
                && r.value.1 == pos - AlignDown(pos)
    {
      var hit := CacheLookup(pos);
      if hit.Some? {
        return Ok(hit.value);
      }
      var fetched := FetchAround(pos, link);
      if fetched.Err? {
        return Err(fetched.error);
      }
      r := Ok((fetched.value, pos - pages[fetched.value].start));
    }

    /** Fill `buf` from the cursor. Exactly the bytes of the file, or an error that changed nothing. */
    method Read(buf: array<byte>, link: Link) returns (r: Result<nat, IoError>)
      requires Valid() && LinkOk(link)
      modifies this`pos, this`pages, this`touched, this`totalLen, buf
      ensures Valid()
      ensures r.Err? ==> link != Up
      ensures r.Err? ==> pos == old(pos) && pages == old(pages) && touched == old(touched) && buf[..] == old(buf[..])
      ensures r.Ok? ==>
                && r.value == ReadLen(|server.file|, old(pos), buf.Length)
                && pos == old(pos) + r.value
                && (r.value > 0 ==> buf[..r.value] == server.file[old(pos)..pos])
                && buf[r.value..] == old(buf[r.value..])
                && touched == if r.value == 0 then old(touched)
                              else old(touched) + AccessTouches(old(pages), old(pos), |server.file|)
    {
      hide CacheOk, AccessTouches;
      if buf.Length == 0 {
        return Ok(0);
      }
      if totalLen.Some? && pos >= totalLen.value {
        return Ok(0);
      }
      var at := PageAtCursor(link);
      if at.Err? {
        return Err(at.error);
      }
      var page, within := pages[at.value.0], at.value.1;
      PageBytes(server, pages, touched, at.value.0, pos);
      var toCopy := Min(|page.bytes| - within, buf.Length);
      SamePrefix(page.bytes, within, server.file, pos, |page.bytes| - within, toCopy);
      CopyInto(buf, page.bytes[within..within + toCopy]);
      pos := pos + toCopy;
      r := Ok(toCopy);
    }

    method CopyInto(buf: array<byte>, src: seq<byte>)
      requires |src| <= buf.Length
      modifies buf
      ensures buf[..|src|] == src && buf[|src|..] == old(buf[|src|..])
    {
      forall i | 0 <= i < |src| {
        buf[i] := src[i];
      }
    }

    /** Seeking computes the clamped target and touches neither the network nor the cache. */
    method Seek(to: SeekFrom) returns (r: Result<nat, IoError>)
      requires Valid() && OpOk(SeekOp(to))
      modifies `pos
      ensures Valid()
      ensures pos == ClampU64(SeekTarget(|server.file|, old(pos), to)) && r == Ok(pos)
      ensures to.Start? ==> pos == to.n
      ensures to.End? || to.Current? ==>
                var target := (if to.End? then |server.file| else old(pos)) + to.delta;
                && (0 <= target <= 0xFFFF_FFFF_FFFF_FFFF ==> pos == target)
                && (target < 0 ==> pos == 0)
                && (target > 0xFFFF_FFFF_FFFF_FFFF ==> pos == 0xFFFF_FFFF_FFFF_FFFF)
    {
      var newPos;
      match to {
        case Start(n) =>
          newPos := n;
        case End(delta) =>
          if totalLen == None {
            return Err(Unsupported);
          }
          newPos := SaturatingMove(totalLen.value, delta);
        case Current(delta) =>
          newPos := SaturatingMove(pos, delta);
      }
      pos := newPos;
      r := Ok(pos);
    }

    method Perform(op: Op) returns (out: seq<byte>)
      requires Valid() && OpOk(op)
      modifies this`pos, this`pages, this`touched, this`totalLen
      ensures Valid()
      ensures out == FlatOutput(server.file, old(pos), op) && pos == FlatMove(server.file, old(pos), op)
    {
      hide CacheOk, AccessTouches;
      match op {
        case ReadOp(want) =>
          var buf := new byte[want];
          var r := Read(buf, Up);
          out := buf[..r.value];
        case SeekOp(to) =>
          var _ := Seek(to);
          out := [];
      }
    }

    /** Any sequence of seeks and reads delivers what it would deliver on the flat file. */
    method Replay(ops: seq<Op>) returns (outs: seq<seq<byte>>)
      requires Valid() && forall op :: op in ops ==> OpOk(op)
      modifies this`pos, this`pages, this`touched, this`totalLen
      ensures Valid()
      ensures outs == FlatOutputs(server.file, old(pos), ops) && pos == FlatEnd(server.file, old(pos), ops)
    {
      hide FlatOutput, FlatMove, CacheOk;
      outs := [];
      for i := 0 to |ops|
        invariant Valid()
        invariant outs + FlatOutputs(server.file, pos, ops[i..]) == FlatOutputs(server.file, old(pos), ops)
        invariant FlatEnd(server.file, pos, ops[i..]) == FlatEnd(server.file, old(pos), ops)
      {
        assert ops[i] in ops && ops[i..][1..] == ops[i + 1..];
        var out := Perform(ops[i]);
        outs := outs + [out];
      }
    }

    /** Reading until a read delivers nothing returns the rest of the file, once. */
    method ReadToEnd(bufLen: nat) returns (out: seq<byte>)
      requires Valid() && bufLen > 0
      modifies this`pos, this`pages, this`touched, this`totalLen
      ensures Valid()
      ensures out == server.file[Min(old(pos), |server.file|)..]
      ensures pos == if old(pos) > |server.file| then old(pos) else |server.file|
    {
      out := [];
      ghost var from, len := pos, |server.file|;
      var buf := new byte[bufLen];
      hide CacheOk, AccessTouches, ReadLen;
      while true
        invariant Valid() && from <= pos && (pos <= len || pos == from)
        invariant out == server.file[Min(from, len)..Min(pos, len)]
        decreases len - Min(pos, len)
      {
        ghost var before := pos;
        var r := Read(buf, Up);
        if r.value == 0 {
          return;
        }
        Adjoin(server.file, from, before, pos);
        out := out + buf[..r.value];
      }
    }
  }

  lemma SamePrefix(a: seq<byte>, w: nat, f: seq<byte>, p: nat, n: nat, k: nat)
    requires k <= n && w + n == |a| && p + n <= |f| && a[w..] == f[p..p + n]
    ensures a[w..w + k] == f[p..p + k]
  {
    assert a[w..w + k] == a[w..][..k] && f[p..p + k] == f[p..p + n][..k];
  }

  lemma Adjoin(file: seq<byte>, from: nat, mid: nat, to: nat)
    requires from <= mid <= to <= |file|
    ensures file[from..to] == file[from..mid] + file[mid..to]
  {
  }

  /** The cache of a range server is a true LRU: at most 16 pages, and a page that was ever touched
      is in it exactly when fewer than 16 other pages were touched since. */
  lemma CachedIffRecent(server: Server, pages: seq<Page>, touched: seq<nat>, start: nat)
    requires CacheOk(server, pages, touched) && server.Ranged? && start in touched
    ensures |pages| <= 16
    ensures start in Starts(pages) <==> |TouchedSince(touched, start)| < 16
  {
    MostRecent(touched, start, MAX_CACHED_PAGES);
  }

  /** `saturating_add` for a non-negative delta, `saturating_sub` of its magnitude otherwise. */
  function SaturatingMove(base: nat, delta: int): (p: nat)
    requires base <= U64_MAX
    ensures p == ClampU64(base + delta)
  {
    if delta >= 0 then Min(base + delta, U64_MAX) else if base < -delta then 0 else base + delta
  }

  lemma PrefetchPages(server: Server)
    requires server.Whole? || server.file != []
    ensures var body := Respond(server, 0, PREFETCH_BYTES - 1).body;
            CacheOk(server, Sliced(0, body, []), SliceStarts(0, |body|))
            && forall o :: 0 <= o < |body| ==> AlignDown(o) in Starts(Sliced(0, body, []))
  {
    var body := Respond(server, 0, PREFETCH_BYTES - 1).body;
    var xs := SliceStarts(0, |body|);
    assert body == server.file[0..|body|];
    SliceStartsFacts(0, |body|);
    hide Respond, Sliced, SliceStarts, AlignDown, TouchAll, Recency;
    assert Coherent(server.file, []) && Distinct([]);
    SlicedCoherent(server.file, 0, |body|, []);
    FirstTouches(xs);
  }

  lemma FirstTouches(xs: seq<nat>)
    ensures TouchAll(Starts([]), xs) == Recency(xs) && |Recency(xs)| <= |xs|
    ensures forall x :: x in xs <==> x in Recency(xs)
  {
    assert Starts([]) == [] == Recency([]);
    RecencyTouchAll([], xs);
    assert [] + xs == xs;
    RecencyDistinct(xs);
    TouchAllBound([], xs);
  }

  lemma {:induction false} TouchAllBound(s: seq<nat>, xs: seq<nat>)
    requires Distinct(s)
    ensures |TouchAll(s, xs)| <= |s| + |xs|
    decreases |xs|
  {
    if xs != [] {
      TouchDistinct(s, xs[0]);
      TouchAllBound(Touch(s, xs[0]), xs[1..]);
    }
  }

  function LastPages(pages: seq<Page>): (last: seq<Page>)
    ensures Starts(last) == LastN(Starts(pages), MAX_CACHED_PAGES)
  {
    if |pages| <= MAX_CACHED_PAGES then pages else pages[|pages| - MAX_CACHED_PAGES..]
  }

  lemma HitIffCovered(server: Server, pages: seq<Page>, touched: seq<nat>, offset: nat)
    requires CacheOk(server, pages, touched) && offset < |server.file|
    ensures forall i :: 0 <= i < |pages| ==> (Covers(pages[i], offset) <==> pages[i].start == AlignDown(offset))
    ensures AlignDown(offset) in Starts(pages) <==> exists i :: 0 <= i < |pages| && Covers(pages[i], offset)
  {
    hide AlignDown, Covers;
    forall i | 0 <= i < |pages|
      ensures Covers(pages[i], offset) <==> pages[i].start == AlignDown(offset)
    {
      CoveringPage(server.file, pages[i], offset);
    }
    if AlignDown(offset) in Starts(pages) {
      var i :| 0 <= i < |pages| && Starts(pages)[i] == AlignDown(offset);
      assert Covers(pages[i], offset);
    }
    if i :| 0 <= i < |pages| && Covers(pages[i], offset) {
      assert Starts(pages)[i] == AlignDown(offset);
    }
  }

  /** What the page of the cursor holds from the cursor on. */
  lemma PageBytes(server: Server, pages: seq<Page>, touched: seq<nat>, i: nat, pos: nat)
    requires CacheOk(server, pages, touched) && i < |pages| && pos < |server.file|
    requires pages[i].start == AlignDown(pos)
    ensures var within, n := pos - AlignDown(pos), Min(PAGE_SIZE - pos % PAGE_SIZE, |server.file| - pos);
            |pages[i].bytes| == within + n && pages[i].bytes[within..] == server.file[pos..pos + n]
  {
  }

  function Promoted(pages: seq<Page>, at: nat): seq<Page>
    requires at < |pages|
  {
    pages[..at] + pages[at + 1..] + [pages[at]]
  }

  lemma PromotedPages(pages: seq<Page>, at: nat)
    requires at < |pages| && Distinct(Starts(pages))
    ensures Starts(Promoted(pages, at)) == Touch(Starts(pages), pages[at].start)
    ensures forall p :: p in Promoted(pages, at) <==> p in pages
  {
    assert pages == pages[..at] + [pages[at]] + pages[at + 1..];
    WithoutAt(Starts(pages), at);
  }

  lemma PromotedCoherent(file: seq<byte>, pages: seq<Page>, at: nat)
    requires Coherent(file, pages) && at < |pages|
    ensures Coherent(file, Promoted(pages, at))
    ensures AllCached(file, pages) ==> AllCached(file, Promoted(pages, at))
  {
    var after, x := Promoted(pages, at), pages[at].start;
    PromotedPages(pages, at);
    hide Promoted, Touch;
    TouchDistinct(Starts(pages), x);
    assert forall i :: 0 <= i < |after| ==> after[i] in pages;
  }

  /** Moving the page at `at` to the back is a touch, in the cache and in the full recency order. */
  lemma PromoteIsTouch(server: Server, pages: seq<Page>, at: nat, touched: seq<nat>)
    requires CacheOk(server, pages, touched) && at < |pages|
    ensures CacheOk(server, Promoted(pages, at), touched + [pages[at].start])
  {
    var x := pages[at].start;
    PromotedPages(pages, at);
    PromotedCoherent(server.file, pages, at);
    hide Touch, Recency, Coherent, AllCached, Promoted;
    RecencyTouch(touched, x);
    RecencyDistinct(touched);
    assert x in Starts(pages) by { assert Starts(pages)[at] == x; }
    RecentTouch(Starts(pages), Recency(touched), x);
  }

  lemma RecencyTouch(touched: seq<nat>, x: nat)
    ensures Recency(touched + [x]) == Touch(Recency(touched), x)
  {
  }

  /** Touching a page of the cache touches it in the recency order. */
  lemma RecentTouch(s: seq<nat>, r: seq<nat>, x: nat)
    requires Distinct(r) && x in s && (s == LastN(r, MAX_CACHED_PAGES) || s == r)
    ensures s == LastN(r, MAX_CACHED_PAGES) ==> Touch(s, x) == LastN(Touch(r, x), MAX_CACHED_PAGES)
  {
    hide Touch;
    assert Distinct(s);
    TouchDistinct(s, x);
    TouchDistinct(r, x);
    if s == LastN(r, MAX_CACHED_PAGES) {
      TouchKeepsRecent(s, r, MAX_CACHED_PAGES, x);
    }
  }

  /** The chunk a miss fetches: four pages, or what is left of the file. */
  function FetchChunk(file: seq<byte>, offset: nat): seq<byte>
    requires offset < |file|
  {
    file[AlignDown(offset)..Min(AlignDown(offset) + 4 * PAGE_SIZE, |file|)]
  }

  /** Only a range server misses, and it answers with exactly the chunk. */
  lemma FetchedChunk(server: Server, pages: seq<Page>, touched: seq<nat>, offset: nat)
    requires CacheOk(server, pages, touched) && offset < |server.file| && AlignDown(offset) !in Starts(pages)
    ensures server.Ranged?
    ensures var lo := AlignDown(offset);
            var resp := Respond(server, lo, Min(lo + PAGE_SIZE * 4 - 1, |server.file| - 1));
            resp.status == 206 && resp.body == FetchChunk(server.file, offset)
  {
  }

  lemma AccessSlice(pages: seq<Page>, offset: nat, file: seq<byte>)
    requires offset < |file| && AlignDown(offset) !in Starts(pages)
    ensures var lo := AlignDown(offset);
            var hi := Min(lo + 4 * PAGE_SIZE, |file|);
            && lo % PAGE_SIZE == 0 && lo < hi <= |file| && FetchChunk(file, offset) == file[lo..hi]
            && AccessTouches(pages, offset, |file|) == SliceStarts(lo, hi - lo)
            && lo in SliceStarts(lo, hi - lo) && |SliceStarts(lo, hi - lo)| <= MAX_CACHED_PAGES
  {
    var lo := AlignDown(offset);
    SliceStartsFacts(lo, Min(lo + 4 * PAGE_SIZE, |file|) - lo);
  }

  lemma SliceAndTrim(server: Server, pages: seq<Page>, touched: seq<nat>, lo: nat, hi: nat, xs: seq<nat>)
    requires CacheOk(server, pages, touched) && server.Ranged? && lo < hi <= |server.file|
    requires lo % PAGE_SIZE == 0 && (hi % PAGE_SIZE == 0 || hi == |server.file|)
    requires xs == SliceStarts(lo, hi - lo) && lo in xs && |xs| <= MAX_CACHED_PAGES
    ensures CacheOk(server, LastPages(Sliced(lo, server.file[lo..hi], pages)), touched + xs)
    ensures lo in Starts(LastPages(Sliced(lo, server.file[lo..hi], pages)))
  {
    hide SliceStarts, Coherent, Recency, LastN, TouchAll, AllCached, Sliced, LastPages;
    SlicedCoherent(server.file, lo, hi, pages);
    LastPagesCoherent(server.file, Sliced(lo, server.file[lo..hi], pages));
    TouchesOnLru(Starts(pages), touched, xs, lo);
  }

  /** Slicing in the chunk and trimming leaves the most recent pages, the wanted one among them. */
  lemma FetchIsTouches(server: Server, pages: seq<Page>, touched: seq<nat>, offset: nat)
    requires CacheOk(server, pages, touched) && offset < |server.file| && AlignDown(offset) !in Starts(pages)
    ensures var after := LastPages(Sliced(AlignDown(offset), FetchChunk(server.file, offset), pages));
            && CacheOk(server, after, touched + AccessTouches(pages, offset, |server.file|))
            && AlignDown(offset) in Starts(after)
  {
    FetchedChunk(server, pages, touched, offset);
    hide CacheOk, Sliced, LastPages, FetchChunk, AccessTouches, SliceStarts;
    var lo := AlignDown(offset);
    var hi := Min(lo + 4 * PAGE_SIZE, |server.file|);
    AccessSlice(pages, offset, server.file);
    SliceAndTrim(server, pages, touched, lo, hi, SliceStarts(lo, hi - lo));
  }

  /** An LRU of the 16 most recent elements that absorbs a few touches before it trims. */
  lemma TouchesOnLru(s: seq<nat>, touched: seq<nat>, xs: seq<nat>, x: nat)
    requires s == LastN(Recency(touched), MAX_CACHED_PAGES) && |xs| <= MAX_CACHED_PAGES && x in xs
    ensures LastN(TouchAll(s, xs), MAX_CACHED_PAGES) == LastN(Recency(touched + xs), MAX_CACHED_PAGES)
    ensures x in LastN(TouchAll(s, xs), MAX_CACHED_PAGES)
  {
    hide Recency, TouchAll;
    RecencyDistinct(touched);
    RecencyTouchAll(touched, xs);
    TouchAllKeepsRecent(s, Recency(touched), MAX_CACHED_PAGES, xs);
    TouchAllKeepsLast(s, xs, x, MAX_CACHED_PAGES - |xs|);
  }

  lemma LastPagesCoherent(file: seq<byte>, pages: seq<Page>)
    requires Coherent(file, pages)
    ensures Coherent(file, LastPages(pages))
  {
  }

  lemma SuffixInLast(front: seq<nat>, tail: seq<nat>, x: nat, n: nat)
    requires x in tail && |tail| <= n
    ensures x in LastN(front + tail, n)
  {
    var i :| 0 <= i < |tail| && tail[i] == x;
    var last := LastN(front + tail, n);
    assert last[|last| - |tail| + i] == x;
  }

  lemma {:induction false} WithoutShorter(s: seq<nat>, x: nat)
    ensures |Without(s, x)| <= |s|
  {
    if s != [] { WithoutShorter(s[1..], x); }
  }

  lemma TouchSplit(cut: seq<nat>, kept: seq<nat>, y: nat)
    ensures Touch(cut + kept, y) == Without(cut, y) + (Without(kept, y) + [y])
  {
    WithoutAppend(cut, kept, y);
  }

  lemma TouchKeepsLast(s: seq<nat>, y: nat, x: nat, k: nat)
    requires Distinct(s) && (x == y || x in LastN(s, k))
    ensures x in LastN(Touch(s, y), k + 1)
  {
    var kept := LastN(s, k);
    var cut := s[..|s| - |kept|];
    assert s == cut + kept && |kept| <= k;
    hide Without, Touch, LastN;
    TouchSplit(cut, kept, y);
    WithoutElements(kept, y);
    WithoutShorter(kept, y);
    SuffixInLast(Without(cut, y), Without(kept, y) + [y], x, k + 1);
  }

  /** The touched pages, and the `k` most recent before them, end up among the last ones. */
  lemma {:induction false} TouchAllKeepsLast(s: seq<nat>, xs: seq<nat>, x: nat, k: nat)
    requires Distinct(s) && (x in xs || x in LastN(s, k))
    ensures x in LastN(TouchAll(s, xs), k + |xs|)
    decreases |xs|
  {
    if xs != [] {
      TouchDistinct(s, xs[0]);
      if x == xs[0] || x in LastN(s, k) {
        TouchKeepsLast(s, xs[0], x, k);
      }
      TouchAllKeepsLast(Touch(s, xs[0]), xs[1..], x, k + 1);
    }
  }
}
