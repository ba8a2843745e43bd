/** Value-level part of the HTTP page cache (`engine/src/audio/http_source.rs`): pages, the
    recency order of an LRU, and the consistent server of RFC 7233 it talks to. */
module HttpPages {
  import opened Wrappers

  newtype byte = b: int | 0 <= b < 256

  const PAGE_SIZE: nat := 65536
  const MAX_CACHED_PAGES: nat := 16
  const PREFETCH_BYTES: nat := 262144
  const U64_MAX: nat := 0xFFFF_FFFF_FFFF_FFFF

  function Min(a: nat, b: nat): nat { if a < b then a else b }

  function AlignDown(offset: nat): nat { offset / PAGE_SIZE * PAGE_SIZE }

  /** The start of the 64 KiB page an offset lies in. */
  lemma AlignDownMeaning(offset: nat)
    ensures AlignDown(offset) % 65536 == 0 && AlignDown(offset) <= offset < AlignDown(offset) + 65536
  {
  }

  // ---------------------------------------------------------------- server

  /** A server that answers every range request for one file the same way: 206 with exactly
      the range (section 4.1 of RFC 7233), or 200 with the whole file (section 3.1). `advertises`
      is its `Accept-Ranges: bytes` header (section 2.3). */
  datatype Server = Ranged(file: seq<byte>, advertises: bool) | Whole(file: seq<byte>, advertises: bool)

  datatype Response = Response(
    status: nat, acceptRanges: bool, rangeTotal: Option<nat>, contentLength: Option<nat>, body: seq<byte>)

  /** The answer to `Range: bytes=lo-hi`; a range that starts past the end is 416 (section 4.4). */
  function Respond(server: Server, lo: nat, hi: nat): Response {
    var len := |server.file|;
    match server
    case Whole(file, adv) => Response(200, adv, None, Some(len), file)
    case Ranged(file, adv) =>
      if lo >= len || hi < lo then Response(416, adv, Some(len), Some(0), [])
      else Response(206, adv, Some(len), Some(Min(hi + 1, len) - lo), file[lo..Min(hi + 1, len)])
  }

  /** How one request fares: answered, no connection, or answered with an error status. */
  datatype Link = Up | Down | Failing(status: nat)

  predicate Success(status: nat) { 200 <= status < 300 }

  ghost predicate LinkOk(link: Link) { link.Failing? ==> !Success(link.status) }

  /** `ranged_get`: nothing on a transport failure. */
  function RangedGet(server: Server, link: Link, lo: nat, hi: nat): Option<Response> {
    match link
    case Up => Some(Respond(server, lo, hi))
    case Down => None
    case Failing(status) => Some(Response(status, false, None, None, []))
  }

  /** `parse_total_length`: Content-Range first, Content-Length only on a 200. */
  function TotalLength(r: Response): Option<nat> {
    if r.rangeTotal.Some? then r.rangeTotal
    else if r.status == 200 then r.contentLength else None
  }

  // ---------------------------------------------------------------- pages

  datatype Page = Page(start: nat, bytes: seq<byte>)

  predicate Covers(p: Page, offset: nat) { p.start <= offset < p.start + |p.bytes| }

  /** The page is the aligned slice of the file that its start names, and is not empty. */
  ghost predicate PageOf(file: seq<byte>, p: Page) {
    p.start % PAGE_SIZE == 0 && p.start < |file| && p.bytes == file[p.start..Min(p.start + PAGE_SIZE, |file|)]
  }

  function Starts(pages: seq<Page>): (s: seq<nat>)
    ensures |s| == |pages|
  {
    seq(|pages|, i requires 0 <= i < |pages| => pages[i].start)
  }

  ghost predicate Distinct(s: seq<nat>) {
    forall i, j :: 0 <= i < j < |s| ==> s[i] != s[j]
  }

  ghost predicate Coherent(file: seq<byte>, pages: seq<Page>) {
    (forall i :: 0 <= i < |pages| ==> PageOf(file, pages[i])) && Distinct(Starts(pages))
  }

  lemma CoveringPage(file: seq<byte>, p: Page, offset: nat)
    requires PageOf(file, p) && offset < |file|
    ensures Covers(p, offset) <==> p.start == AlignDown(offset)
  {
  }

  /** Coherent pages never overlap: an offset is covered by at most one of them. */
  lemma PagesDisjoint(file: seq<byte>, pages: seq<Page>, i: nat, j: nat, offset: nat)
    requires Coherent(file, pages) && i < |pages| && j < |pages|
    requires Covers(pages[i], offset) && Covers(pages[j], offset)
    ensures i == j
  {
    CoveringPage(file, pages[i], offset);
    CoveringPage(file, pages[j], offset);
    assert Starts(pages)[i] == Starts(pages)[j];
  }

  // ---------------------------------------------------------------- recency order

  function Without(s: seq<nat>, x: nat): seq<nat> {
    if s == [] then [] else (if s[0] == x then [] else [s[0]]) + Without(s[1..], x)
  }

  /** Move or add `x` to the most-recent end. */
  function Touch(s: seq<nat>, x: nat): seq<nat> { Without(s, x) + [x] }

  function TouchAll(s: seq<nat>, xs: seq<nat>): seq<nat>
    decreases |xs|
  {
    if xs == [] then s else TouchAll(Touch(s, xs[0]), xs[1..])
  }

  /** The distinct elements of `log`, ordered by their last occurrence. */
  function Recency(log: seq<nat>): seq<nat> {
    if log == [] then [] else Touch(Recency(log[..|log| - 1]), log[|log| - 1])
  }

  function LastN(s: seq<nat>, n: nat): seq<nat> { if |s| <= n then s else s[|s| - n..] }

  lemma {:induction false} WithoutElements(s: seq<nat>, x: nat)
    ensures forall y :: y in Without(s, x) <==> y in s && y != x
  {
    if s != [] {
      WithoutElements(s[1..], x);
      assert s == [s[0]] + s[1..];
    }
  }

  lemma {:induction false} WithoutDistinct(s: seq<nat>, x: nat)
    requires Distinct(s)
    ensures Distinct(Without(s, x)) && |Without(s, x)| == |s| - if x in s then 1 else 0
  {
    if s != [] {
      assert s == [s[0]] + s[1..];
      assert s[0] !in s[1..];
      WithoutDistinct(s[1..], x);
      WithoutElements(s[1..], x);
      var rest := Without(s[1..], x);
      assert Distinct([s[0]] + rest);
    }
  }

  lemma {:induction false} WithoutAbsent(s: seq<nat>, x: nat)
    requires x !in s
    ensures Without(s, x) == s
  {
    if s != [] {
      assert s == [s[0]] + s[1..];
      WithoutAbsent(s[1..], x);
    }
  }

  lemma {:induction false} WithoutAppend(a: seq<nat>, b: seq<nat>, x: nat)
    ensures Without(a + b, x) == Without(a, x) + Without(b, x)
  {
    if a == [] {
      assert a + b == b;
    } else {
      assert (a + b)[1..] == a[1..] + b;
      WithoutAppend(a[1..], b, x);
    }
  }

  /** On distinct elements `Without` is removal at the one index that holds `x`. */
  lemma {:induction false} WithoutAt(s: seq<nat>, i: nat)
    requires Distinct(s) && i < |s|
    ensures Without(s, s[i]) == s[..i] + s[i + 1..]
  {
    var x, a, b := s[i], s[..i], s[i + 1..];
    assert s == a + [x] + b;
    assert x !in a && x !in b;
    hide Distinct;
    WithoutAppend(a + [x], b, x);
    WithoutAppend(a, [x], x);
    WithoutAbsent(a, x);
    WithoutAbsent(b, x);
  }

  lemma TouchDistinct(s: seq<nat>, x: nat)
    requires Distinct(s)
    ensures Distinct(Touch(s, x)) && |Touch(s, x)| == |s| + if x in s then 0 else 1
    ensures forall y :: y in Touch(s, x) <==> y in s || y == x
  {
    WithoutDistinct(s, x);
    WithoutElements(s, x);
  }

  lemma {:induction false} RecencyDistinct(log: seq<nat>)
    ensures Distinct(Recency(log))
    ensures forall y :: y in Recency(log) <==> y in log
  {
    if log != [] {
      var init, last := log[..|log| - 1], log[|log| - 1];
      RecencyDistinct(init);
      TouchDistinct(Recency(init), last);
      assert log == init + [last];
    }
  }

  lemma {:induction false} RecencyTouchAll(log: seq<nat>, xs: seq<nat>)
    ensures Recency(log + xs) == TouchAll(Recency(log), xs)
    decreases |xs|
  {
    if xs == [] {
      assert log + xs == log;
    } else {
      assert (log + [xs[0]])[..|log|] == log;
      RecencyTouchAll(log + [xs[0]], xs[1..]);
      assert log + [xs[0]] + xs[1..] == log + xs;
    }
  }

  /** `s` is a suffix of `r`: all of it, or at least `n` elements. */
  ghost predicate Recent(s: seq<nat>, r: seq<nat>, n: nat) {
    |s| <= |r| && s == r[|r| - |s|..] && (|s| >= n || s == r)
  }

  /** Forgetting old pages early does not disturb the order of the recent ones. */
  lemma TouchKeepsRecent(s: seq<nat>, r: seq<nat>, n: nat, x: nat)
    requires Distinct(s) && Recent(s, r, n)
    ensures Recent(Touch(s, x), Touch(r, x), n)
  {
    var forgotten := r[..|r| - |s|];
    assert r == forgotten + s;
    WithoutAppend(forgotten, s, x);
    TouchDistinct(s, x);
  }

  lemma {:induction false} TouchAllKeepsRecent(s: seq<nat>, r: seq<nat>, n: nat, xs: seq<nat>)
    requires Distinct(s) && Recent(s, r, n)
    ensures Recent(TouchAll(s, xs), TouchAll(r, xs), n) && Distinct(TouchAll(s, xs))
    decreases |xs|
  {
    if xs != [] {
      TouchDistinct(s, xs[0]);
      TouchKeepsRecent(s, r, n, xs[0]);
      TouchAllKeepsRecent(Touch(s, xs[0]), Touch(r, xs[0]), n, xs[1..]);
    }
  }

  // ---------------------------------------------------------------- what recency means

  /** The distinct pages touched after the last touch of `x`. */
  function TouchedSince(log: seq<nat>, x: nat): set<nat> {
    if log == [] || log[|log| - 1] == x then {}
    else TouchedSince(log[..|log| - 1], x) + {log[|log| - 1]}
  }

  /** Entry `k` touches `y`, and `x` is not touched from there on. */
  predicate SinceLast(log: seq<nat>, x: nat, y: nat, k: int) {
    0 <= k < |log| && log[k] == y && forall j :: k <= j < |log| ==> log[j] != x
  }

  lemma SinceFront(log: seq<nat>, x: nat, y: nat, k: int)
    requires log != [] && k < |log| - 1
    ensures SinceLast(log, x, y, k) <==> SinceLast(log[..|log| - 1], x, y, k) && log[|log| - 1] != x
  {
  }

  lemma {:induction false} TouchedSinceMeaning(log: seq<nat>, x: nat, y: nat)
    ensures y in TouchedSince(log, x) <==> exists k :: SinceLast(log, x, y, k)
  {
    if log != [] {
      var n := |log| - 1;
      TouchedSinceMeaning(log[..n], x, y);
      assert SinceLast(log, x, y, n) <==> log[n] == y && log[n] != x;
      if k :| SinceLast(log[..n], x, y, k) { SinceFront(log, x, y, k); }
      if k :| SinceLast(log, x, y, k) && k < n { SinceFront(log, x, y, k); }
      assert forall k :: SinceLast(log, x, y, k) ==> k <= n && log[n] != x;
      hide SinceLast;
    }
  }

  lemma {:induction false} RecencySplit(log: seq<nat>, x: nat) returns (before: seq<nat>, after: seq<nat>)
    requires x in log
    ensures Recency(log) == before + ([x] + after)
    ensures forall y :: y in after <==> y in TouchedSince(log, x)
  {
    var init, last := log[..|log| - 1], log[|log| - 1];
    if last == x {
      before, after := Without(Recency(init), x), [];
    } else {
      assert log == init + [last];
      before, after := RecencySplit(init, x);
      WithoutAppend(before, [x] + after, last);
      WithoutAppend([x], after, last);
      WithoutAbsent([x], last);
      WithoutElements(after, last);
      before, after := Without(before, last), Without(after, last) + [last];
    }
  }

  lemma {:induction false} SetOfDistinct(s: seq<nat>, elems: set<nat>)
    requires Distinct(s) && forall y :: y in s <==> y in elems
    ensures |elems| == |s|
  {
    if s == [] {
      assert elems == {};
    } else {
      assert s == [s[0]] + s[1..];
      SetOfDistinct(s[1..], elems - {s[0]});
    }
  }

  /** The `n` most recent pages are exactly the pages since whose last touch fewer than `n`
      other pages were touched. */
  lemma MostRecent(log: seq<nat>, x: nat, n: nat)
    requires x in log
    ensures x in LastN(Recency(log), n) <==> |TouchedSince(log, x)| < n
  {
    var before, after := RecencySplit(log, x);
    var r := Recency(log);
    RecencyDistinct(log);
    assert after == r[|before| + 1..];
    SetOfDistinct(after, TouchedSince(log, x));
    if |after| < n {
      assert r[|before|] == x;
      assert LastN(r, n)[|LastN(r, n)| - 1 - |after|] == x;
    } else {
      assert forall i :: |before| < i < |r| ==> r[i] != r[|before|];
    }
  }
}
