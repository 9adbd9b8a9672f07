/** Following page cursors over an unchanged file reads every matching entry of the window once. */
module LogPaging {
  import opened Options
  import opened LogPager

  /** Hits are in order and do not overlap. */
  ghost predicate Spaced<E>(hits: seq<Hit<E>>) {
    && (forall i :: 0 <= i < |hits| ==> hits[i].start < hits[i].end)
    && (forall i, j :: 0 <= i < j < |hits| ==> hits[i].end <= hits[j].start)
  }

  lemma SpacedTail<E>(hits: seq<Hit<E>>)
    requires Spaced(hits) && |hits| > 0
    ensures Spaced(hits[1..])
  {
  }

  /** Hits lie inside the data, in order, without overlap. */
  lemma {:induction false} HitsOrdered<E>(data: seq<Byte>, base: nat, pos: nat, select: seq<Byte> -> Option<E>)
    requires pos <= |data|
    ensures var hits := Hits(data, base, pos, select);
            && (forall i :: 0 <= i < |hits| ==> base + pos <= hits[i].start < hits[i].end <= base + |data|)
            && Spaced(hits)
    decreases |data| - pos
  {
    if pos < |data| {
      HitsOrdered(data, base, NextLine(data, pos), select);
      HitsStep(data, base, pos, select);
    }
  }

  /** `xs` are the hits after some hit that ends at `end`. */
  ghost predicate Resumes<E>(data: seq<Byte>, base: nat, end: nat, select: seq<Byte> -> Option<E>, xs: seq<Hit<E>>) {
    base <= end <= base + |data| && Hits(data, base, end - base, select) == xs
  }

  lemma TailOfConcat<E>(hit: Hit<E>, rest: seq<Hit<E>>, k: nat)
    requires k <= |rest|
    ensures ([hit] + rest)[k + 1..] == rest[k..]
  {
  }

  /** Walking again from the end of a hit finds exactly the hits after it. */
  lemma {:induction false} ResumeAfter<E>(data: seq<Byte>, base: nat, pos: nat, select: seq<Byte> -> Option<E>, k: nat)
    requires pos <= |data| && k < |Hits(data, base, pos, select)|
    ensures var hits := Hits(data, base, pos, select);
            Resumes(data, base, hits[k].end, select, hits[k + 1..])
    decreases |data| - pos
  {
    var next := NextLine(data, pos);
    var rest := Hits(data, base, next, select);
    match select(Raw(data, pos, LineEnd(data, pos)))
    case None => ResumeAfter(data, base, next, select, k);
    case Some(entry) =>
      TailOfConcat(Hit(entry, base + pos, base + next), rest, k);
      if k == 0 {
        assert rest[0..] == rest;
      } else {
        ResumeAfter(data, base, next, select, k - 1);
      }
  }

  predicate WellFormed(w: Window) { w.start + |w.data| == w.fileSize && (w.truncated ==> w.start > 0) }

  // ---- forward ----

  /** What a page that reports more was cut from. */
  lemma MorePage<E>(w: Window, limit: nat, cursor: int, select: seq<Byte> -> Option<E>)
    requires WellFormed(w) && limit > 0 && PageOf(w, limit, cursor, select).more
    ensures WalkFrom(w, cursor).0.Some?
    ensures var p := WalkFrom(w, cursor).0.value;
            && cursor <= w.start + p && |Hits(w.data, w.start, p, select)| > limit
            && PageOf(w, limit, cursor, select).cursor == Hits(w.data, w.start, p, select)[limit - 1].end
  {
    WalkAhead(w, cursor);
  }

  /** A walk never begins before its cursor. */
  lemma WalkAhead(w: Window, cursor: int)
    requires WellFormed(w)
    ensures WalkFrom(w, cursor).0.Some? ==> cursor <= w.start + WalkFrom(w, cursor).0.value
  {
  }

  /** Strictly inside the window a walk begins at its cursor. */
  lemma WalkInside(w: Window, cursor: int)
    requires WellFormed(w) && w.start < cursor < w.fileSize
    ensures WalkFrom(w, cursor) == (Some(cursor - w.start), cursor)
  {
  }

  /** A page that reports more ends strictly later than it began, and its cursor resumes right after it. */
  lemma PageResumes<E>(w: Window, limit: nat, cursor: int, select: seq<Byte> -> Option<E>)
    requires WellFormed(w) && limit > 0 && PageOf(w, limit, cursor, select).more
    ensures var next := PageOf(w, limit, cursor, select).cursor;
            var p := WalkFrom(w, cursor).0.value;
            && cursor < next < w.fileSize && w.start < next
            && WalkFrom(w, next) == (Some(next - w.start), next)
            && |Hits(w.data, w.start, p, select)| > limit
            && Hits(w.data, w.start, next - w.start, select) == Hits(w.data, w.start, p, select)[limit..]
  {
    MorePage(w, limit, cursor, select);
    var p := WalkFrom(w, cursor).0.value;
    HitAhead(w.data, w.start, p, select, limit);
    WalkInside(w, PageOf(w, limit, cursor, select).cursor);
    ResumeAfter(w.data, w.start, p, select, limit - 1);
  }

  lemma HitAhead<E>(data: seq<Byte>, base: nat, pos: nat, select: seq<Byte> -> Option<E>, k: nat)
    requires pos <= |data| && 0 < k < |Hits(data, base, pos, select)|
    ensures base + pos < Hits(data, base, pos, select)[k - 1].end < base + |data|
  {
    HitsOrdered(data, base, pos, select);
    var hits := Hits(data, base, pos, select);
    assert hits[k - 1].end <= hits[k].start;
  }

  /** The pages from a cursor, one after the other, while more are reported. */
  function Forward<E>(w: Window, limit: nat, cursor: int, select: seq<Byte> -> Option<E>): (r: seq<E>)
    requires WellFormed(w) && limit > 0
    decreases w.fileSize - cursor
  {
    var page := PageOf(w, limit, cursor, select);
    if !page.more then page.entries
    else
      PageResumes(w, limit, cursor, select);
      page.entries + Forward(w, limit, page.cursor, select)
  }

  lemma EntriesSplit<E>(hits: seq<Hit<E>>, k: nat)
    requires k <= |hits|
    ensures Entries(hits) == Entries(hits[..k]) + Entries(hits[k..])
  {
    assert hits[..k] + hits[k..] == hits;
  }

  lemma {:induction false} ForwardFrom<E>(w: Window, limit: nat, cursor: int, select: seq<Byte> -> Option<E>)
    requires WellFormed(w) && limit > 0 && WalkFrom(w, cursor).0.Some?
    ensures Forward(w, limit, cursor, select) == Entries(Hits(w.data, w.start, WalkFrom(w, cursor).0.value, select))
    decreases w.fileSize - cursor
  {
    var page := PageOf(w, limit, cursor, select);
    if page.more {
      PageResumes(w, limit, cursor, select);
      ForwardFrom(w, limit, page.cursor, select);
      var hits := Hits(w.data, w.start, WalkFrom(w, cursor).0.value, select);
      EntriesSplit(hits, limit);
      assert page.entries == Entries(hits[..limit]);
      assert Forward(w, limit, page.cursor, select) == Entries(hits[limit..]);
    }
  }

  /** Following Page from 0 yields every matching entry of the scan window once, in file order. */
  lemma ForwardIsExact<E>(file: seq<Byte>, maxScan: nat, limit: int, select: seq<Byte> -> Option<E>)
    ensures WellFormed(WindowOf(file, maxScan))
    ensures Forward(WindowOf(file, maxScan), LimitOf(limit), 0, select) == Entries(WindowHits(WindowOf(file, maxScan), select))
  {
    var w := WindowOf(file, maxScan);
    if WalkFrom(w, 0).0.Some? { ForwardFrom(w, LimitOf(limit), 0, select); }
  }

  /** Cursors strictly progress: a page that reports more is followed by one that starts later. */
  lemma ForwardCursorsRise<E>(file: seq<Byte>, maxScan: nat, limit: int, cursor: int, select: seq<Byte> -> Option<E>)
    requires PageOf(WindowOf(file, maxScan), LimitOf(limit), cursor, select).more
    ensures cursor < PageOf(WindowOf(file, maxScan), LimitOf(limit), cursor, select).cursor < |file|
  {
    PageResumes(WindowOf(file, maxScan), LimitOf(limit), cursor, select);
  }

  // ---- backward ----

  /** A bound at the start of a hit leaves exactly the hits before it. */
  lemma {:induction false} UpToStart<E>(hits: seq<Hit<E>>, k: nat, before: nat)
    requires k < |hits| && before == hits[k].start && before > 0 && Spaced(hits)
    ensures UpTo(hits, before) == hits[..k]
  {
    if k > 0 {
      SpacedTail(hits);
      UpToStart(hits[1..], k - 1, before);
      FrontOfTail(hits, k);
    }
  }

  lemma FrontOfTail<E>(hits: seq<Hit<E>>, k: nat)
    requires 0 < k <= |hits|
    ensures hits[..k] == [hits[0]] + hits[1..][..k - 1]
  {
  }

  lemma WindowHitsOrdered<E>(w: Window, select: seq<Byte> -> Option<E>)
    requires WellFormed(w)
    ensures Spaced(WindowHits(w, select))
  {
    if FirstLine(w).Some? {
      HitsOrdered(w.data, w.start, FirstLine(w).value, select);
      assert WindowHits(w, select) == Hits(w.data, w.start, FirstLine(w).value, select);
    }
  }

  /** A page that reports more has a usable cursor, and that cursor bounds exactly the older hits. */
  lemma PageBeforeResumes<E>(w: Window, limit: nat, before: int, select: seq<Byte> -> Option<E>)
    requires WellFormed(w) && limit > 0 && PageBeforeOf(w, limit, before, select).more
    ensures var next := PageBeforeOf(w, limit, before, select).cursor;
            var hits := UpTo(WindowHits(w, select), before);
            && next > 0 && (before > 0 ==> next < before)
            && UpTo(WindowHits(w, select), next) == hits[..|hits| - limit]
  {
    WindowHitsOrdered(w, select);
    OlderHits(WindowHits(w, select), limit, before);
  }

  /** The start of the oldest hit of a full page bounds exactly the hits before it. */
  lemma OlderHits<E>(all: seq<Hit<E>>, limit: nat, before: int)
    requires Spaced(all) && 0 < limit < |UpTo(all, before)|
    ensures var hits := UpTo(all, before);
            var next := LastN(hits, limit)[0].start;
            next > 0 && (before > 0 ==> next < before) && UpTo(all, next) == hits[..|hits| - limit]
  {
    var hits := UpTo(all, before);
    var k := |hits| - limit;
    LastNFirst(hits, limit);
    SameFront(all, hits, k);
    BoundAt(all, k, before);
  }

  lemma LastNFirst<E>(hits: seq<Hit<E>>, limit: nat)
    requires 0 < limit < |hits|
    ensures LastN(hits, limit)[0] == hits[|hits| - limit]
  {
  }

  lemma SameFront<E>(all: seq<Hit<E>>, hits: seq<Hit<E>>, k: nat)
    requires |hits| <= |all| && hits == all[..|hits|] && k < |hits|
    ensures hits[k] == all[k] && hits[..k] == all[..k]
  {
  }

  /** The start of a hit that is within a bound is a lower bound, and leaves exactly the hits before it. */
  lemma BoundAt<E>(all: seq<Hit<E>>, k: nat, before: int)
    requires Spaced(all) && 0 < k < |UpTo(all, before)|
    ensures all[k].start > 0 && UpTo(all, all[k].start) == all[..k] && (before > 0 ==> all[k].start < before)
  {
    StartsPositive(all, k);
    UpToStart(all, k, all[k].start);
    if before > 0 { UpToBounded(all, before, k); }
  }

  lemma StartsPositive<E>(all: seq<Hit<E>>, k: nat)
    requires Spaced(all) && 0 < k < |all|
    ensures all[k].start > 0
  {
    assert all[0].start < all[0].end <= all[k].start;
  }

  lemma {:induction false} UpToBounded<E>(hits: seq<Hit<E>>, before: int, i: nat)
    requires before > 0 && i < |UpTo(hits, before)|
    ensures hits[i].end <= before
  {
    if i > 0 { UpToBounded(hits[1..], before, i - 1); }
  }

  /** The pages before a bound, older ones first, while more are reported. */
  function Backward<E>(w: Window, limit: nat, before: int, select: seq<Byte> -> Option<E>): (r: seq<E>)
    requires WellFormed(w) && limit > 0
    decreases |UpTo(WindowHits(w, select), before)|
  {
    var page := PageBeforeOf(w, limit, before, select);
    if !page.more then page.entries
    else
      PageBeforeResumes(w, limit, before, select);
      Backward(w, limit, page.cursor, select) + page.entries
  }

  lemma {:induction false} BackwardFrom<E>(w: Window, limit: nat, before: int, select: seq<Byte> -> Option<E>)
    requires WellFormed(w) && limit > 0
    ensures Backward(w, limit, before, select) == Entries(UpTo(WindowHits(w, select), before))
    decreases |UpTo(WindowHits(w, select), before)|
  {
    var page := PageBeforeOf(w, limit, before, select);
    if page.more {
      PageBeforeResumes(w, limit, before, select);
      BackwardFrom(w, limit, page.cursor, select);
      var hits := UpTo(WindowHits(w, select), before);
      var k := |hits| - limit;
      EntriesSplit(hits, k);
    }
  }

  /** Following PageBefore from 0 yields the same entries, once each, in the same overall order. */
  lemma BackwardIsExact<E>(file: seq<Byte>, maxScan: nat, limit: int, select: seq<Byte> -> Option<E>)
    ensures WellFormed(WindowOf(file, maxScan))
    ensures Backward(WindowOf(file, maxScan), LimitOf(limit), 0, select) == Entries(WindowHits(WindowOf(file, maxScan), select))
    ensures Backward(WindowOf(file, maxScan), LimitOf(limit), 0, select) == Forward(WindowOf(file, maxScan), LimitOf(limit), 0, select)
  {
    BackwardFrom(WindowOf(file, maxScan), LimitOf(limit), 0, select);
    ForwardIsExact(file, maxScan, limit, select);
  }

  /** Backward cursors are positive and strictly fall while more is reported. */
  lemma BackwardCursorsFall<E>(file: seq<Byte>, maxScan: nat, limit: int, before: int, select: seq<Byte> -> Option<E>)
    requires PageBeforeOf(WindowOf(file, maxScan), LimitOf(limit), before, select).more
    ensures var next := PageBeforeOf(WindowOf(file, maxScan), LimitOf(limit), before, select).cursor;
            next > 0 && (before > 0 ==> next < before)
  {
    PageBeforeResumes(WindowOf(file, maxScan), LimitOf(limit), before, select);
  }

  /** Tail shows the first backward page; it is truncated when the window is, or when that page reports more. */
  lemma TailIsFirstPage<E>(file: seq<Byte>, maxScan: nat, limit: int, select: seq<Byte> -> Option<E>)
    ensures var w := WindowOf(file, maxScan);
            var page := PageBeforeOf(w, LimitOf(limit), 0, select);
            TailOf(w, LimitOf(limit), select) == TailResult(page.entries, page.truncated || page.more)
  {
  }
}
