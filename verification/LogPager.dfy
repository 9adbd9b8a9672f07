/**
 Paging through a log file by byte offsets. A read examines the last `maxScan`
 bytes. Decoding a line and matching it against the query is the parameter
 `select`: the entry of a raw line, or nothing.
 */
module LogPager {
  import opened Options

  type Byte = b: int | 0 <= b < 256

  const NEWLINE: Byte := 10
  const RETURN: Byte := 13

  /** A matching entry with the offsets of its line. */
  datatype Hit<E> = Hit(entry: E, start: nat, end: nat)

  datatype Window = Window(data: seq<Byte>, start: nat, fileSize: nat, truncated: bool)

  datatype PageResult<E> = PageResult(entries: seq<E>, truncated: bool, more: bool, cursor: int)

  datatype TailResult<E> = TailResult(entries: seq<E>, truncated: bool)

  /** readWindow, for a file that exists. */
  function WindowOf(file: seq<Byte>, maxScan: nat): (w: Window)
    ensures w.start + |w.data| == w.fileSize == |file| && w.data == file[w.start..]
    ensures w.truncated <==> |file| > maxScan
    ensures |w.data| == if w.truncated then maxScan else |file|
  {
    if |file| > maxScan then Window(file[|file| - maxScan..], |file| - maxScan, |file|, true)
    else Window(file, 0, |file|, false)
  }

  const DEFAULT_TAIL_LINES := 200
  const MAX_TAIL_LINES := 2000

  function LimitOf(limit: int): (n: nat)
    ensures 0 < n <= MAX_TAIL_LINES
  {
    if limit <= 0 then DEFAULT_TAIL_LINES else if limit > MAX_TAIL_LINES then MAX_TAIL_LINES else limit
  }

  /** Where the line that starts at `pos` ends: at its newline, or at the end of the data. */
  function LineEnd(data: seq<Byte>, pos: nat): (e: nat)
    requires pos <= |data|
    ensures pos <= e <= |data|
    ensures forall i :: pos <= i < e ==> data[i] != NEWLINE
    ensures e < |data| ==> data[e] == NEWLINE
    decreases |data| - pos
  {
    if pos == |data| || data[pos] == NEWLINE then pos else LineEnd(data, pos + 1)
  }

  /** The line without its newline and a carriage return before it. */
  function Raw(data: seq<Byte>, pos: nat, e: nat): (r: seq<Byte>)
    requires pos <= e <= |data|
  {
    if pos < e && data[e - 1] == RETURN then data[pos..e - 1] else data[pos..e]
  }

  /** Where the next line starts. */
  function NextLine(data: seq<Byte>, pos: nat): (p: nat)
    requires pos < |data|
    ensures pos < p <= |data|
  {
    if LineEnd(data, pos) < |data| then LineEnd(data, pos) + 1 else |data|
  }

  /** Every matching entry from `pos` on, in file order. */
  function Hits<E>(data: seq<Byte>, base: nat, pos: nat, select: seq<Byte> -> Option<E>): (r: seq<Hit<E>>)
    requires pos <= |data|
    decreases |data| - pos
  {
    if pos == |data| then []
    else
      var rest := Hits(data, base, NextLine(data, pos), select);
      match select(Raw(data, pos, LineEnd(data, pos)))
      case None => rest
      case Some(entry) => [Hit(entry, base + pos, base + NextLine(data, pos))] + rest
  }

  /** Where a read of the whole window begins: past a partial first line. None when there is no line to read. */
  function FirstLine(w: Window): (p: Option<nat>)
    ensures p.Some? ==> p.value <= |w.data|
  {
    if w.fileSize == 0 then None
    else if !w.truncated then Some(0)
    else if LineEnd(w.data, 0) == |w.data| then None
    else Some(LineEnd(w.data, 0) + 1)
  }

  /** Every matching entry of the scan window. */
  function WindowHits<E>(w: Window, select: seq<Byte> -> Option<E>): (r: seq<Hit<E>>) {
    match FirstLine(w) case None => [] case Some(p) => Hits(w.data, w.start, p, select)
  }

  function Entries<E>(hits: seq<Hit<E>>): (r: seq<E>)
    ensures |r| == |hits| && forall i :: 0 <= i < |hits| ==> r[i] == hits[i].entry
  {
    seq(|hits|, i requires 0 <= i < |hits| => hits[i].entry)
  }

  // ---- what the three readers return ----

  /** Where readLines starts walking for a cursor, or None with the cursor it answers when it does not walk. */
  function WalkFrom(w: Window, cursor: int): (r: (Option<nat>, int))
    requires w.start + |w.data| == w.fileSize
    ensures r.0.Some? ==> r.0.value <= |w.data|
  {
    var c := if cursor < w.start then w.start else cursor;
    if c >= w.fileSize then (None, c)
    else if c == w.start && w.truncated then
      if LineEnd(w.data, 0) == |w.data| then (None, w.fileSize) else (Some(LineEnd(w.data, 0) + 1), c)
    else (Some(c - w.start), c)
  }

  function PageOf<E>(w: Window, limit: nat, cursor: int, select: seq<Byte> -> Option<E>): (r: PageResult<E>)
    requires w.start + |w.data| == w.fileSize && limit > 0
  {
    var (from, c) := WalkFrom(w, cursor);
    match from
    case None => PageResult([], w.truncated, false, c)
    case Some(p) =>
      var hits := Hits(w.data, w.start, p, select);
      if |hits| <= limit then PageResult(Entries(hits), w.truncated, false, w.fileSize)
      else PageResult(Entries(hits[..limit]), w.truncated, true, hits[limit - 1].end)
  }

  /** The leading hits that end at or before the bound; all of them for no bound. */
  function UpTo<E>(hits: seq<Hit<E>>, before: int): (r: seq<Hit<E>>)
    ensures |r| <= |hits| && r == hits[..|r|]
  {
    if before <= 0 then hits
    else if |hits| == 0 || hits[0].end > before then []
    else
      var rest := UpTo(hits[1..], before);
      assert hits[..|rest| + 1] == [hits[0]] + hits[1..][..|rest|];
      [hits[0]] + rest
  }

  function LastN<E>(hits: seq<Hit<E>>, n: nat): (r: seq<Hit<E>>)
    ensures |r| == if |hits| <= n then |hits| else n
  {
    if |hits| <= n then hits else hits[|hits| - n..]
  }

  function PageBeforeOf<E>(w: Window, limit: nat, before: int, select: seq<Byte> -> Option<E>): (r: PageResult<E>)
    requires limit > 0
  {
    var hits := UpTo(WindowHits(w, select), before);
    var page := LastN(hits, limit);
    PageResult(Entries(page), w.truncated, |hits| > limit, if |page| > 0 then page[0].start else 0)
  }

  function TailOf<E>(w: Window, limit: nat, select: seq<Byte> -> Option<E>): (r: TailResult<E>) {
    var hits := WindowHits(w, select);
    TailResult(Entries(LastN(hits, limit)), w.truncated || |hits| > limit)
  }

  // ---- the loops ----

  method IndexNewline(data: seq<Byte>, pos: nat) returns (e: nat)
    requires pos <= |data|
    ensures e == LineEnd(data, pos)
  {
    e := pos;
    while e < |data| && data[e] != NEWLINE
      invariant pos <= e <= |data| && LineEnd(data, e) == LineEnd(data, pos)
    {
      e := e + 1;
    }
  }

  /** The hit of the line at `pos`, if it is one. */
  function HitAt<E>(data: seq<Byte>, base: nat, pos: nat, select: seq<Byte> -> Option<E>): (r: seq<Hit<E>>)
    requires pos < |data|
  {
    match select(Raw(data, pos, LineEnd(data, pos)))
    case None => []
    case Some(entry) => [Hit(entry, base + pos, base + NextLine(data, pos))]
  }

  lemma HitsStep<E>(data: seq<Byte>, base: nat, pos: nat, select: seq<Byte> -> Option<E>)
    requires pos < |data|
    ensures Hits(data, base, pos, select) == HitAt(data, base, pos, select) + Hits(data, base, NextLine(data, pos), select)
  {
  }

  lemma Regroup<E>(a: seq<Hit<E>>, b: seq<Hit<E>>, c: seq<Hit<E>>)
    ensures a + (b + c) == (a + b) + c
  {
  }

  /** walkWindow, collecting what it hands to its callback; the answer is the offset to resume at. */
  method WalkWindow<E>(data: seq<Byte>, base: nat, from: nat, select: seq<Byte> -> Option<E>) returns (hits: seq<Hit<E>>, next: nat)
    requires from <= |data|
    ensures hits == Hits(data, base, from, select) && next == base + |data|
  {
    hits := [];
    var pos := from;
    while pos < |data|
      invariant from <= pos <= |data|
      invariant hits + Hits(data, base, pos, select) == Hits(data, base, from, select)
      decreases |data| - pos
    {
      var e := IndexNewline(data, pos);
      var end := if e < |data| then e + 1 else |data|;
      var entry := select(Raw(data, pos, e));
      var hit := if entry.Some? then [Hit(entry.value, base + pos, base + end)] else [];
      HitsStep(data, base, pos, select);
      assert hit == HitAt(data, base, pos, select);
      Regroup(hits, hit, Hits(data, base, end, select));
      hits := hits + hit;
      pos := end;
    }
    assert hits + [] == hits;
    next := base + pos;
  }

  lemma LastNSnoc<E>(hits: seq<Hit<E>>, i: nat, n: nat)
    requires i < |hits| && n > 0
    ensures var before := LastN(hits[..i], n);
            LastN(hits[..i + 1], n) == (if |before| == n then before[1..] else before) + [hits[i]]
  {
  }

  /** The callback of Tail and PageBefore: keep the last `limit` matches up to the bound, shifting when full. */
  method CollectLast<E>(hits: seq<Hit<E>>, limit: nat, before: int) returns (matches: seq<Hit<E>>, dropped: bool)
    requires limit > 0
    ensures matches == LastN(UpTo(hits, before), limit) && dropped == (|UpTo(hits, before)| > limit)
  {
    matches, dropped := [], false;
    var i := 0;
    while i < |hits| && !(before > 0 && hits[i].end > before)
      invariant i <= |UpTo(hits, before)| && i <= |hits|
      invariant matches == LastN(hits[..i], limit) && dropped == (i > limit)
    {
      UpToAt(hits, before, i);
      LastNSnoc(hits, i, limit);
      if |matches| == limit {
        matches := matches[1..];
        dropped := true;
      }
      matches := matches + [hits[i]];
      i := i + 1;
    }
    if i < |hits| { UpToAt(hits, before, i); }
    assert hits[..i] == UpTo(hits, before);
  }

  /** The bound stops the walk exactly at the first hit past it. */
  lemma {:induction false} UpToAt<E>(hits: seq<Hit<E>>, before: int, i: nat)
    requires i < |hits| && |UpTo(hits, before)| >= i
    ensures |UpTo(hits, before)| > i <==> !(before > 0 && hits[i].end > before)
  {
    if before > 0 && i > 0 { UpToAt(hits[1..], before, i - 1); }
  }

  /** The callback of Page: the first `limit` matches, and whether there were more. */
  method CollectFirst<E>(hits: seq<Hit<E>>, limit: nat) returns (matches: seq<Hit<E>>, more: bool)
    ensures matches == (if |hits| <= limit then hits else hits[..limit]) && more == (|hits| > limit)
  {
    matches, more := [], false;
    for i := 0 to |hits|
      invariant matches == (if i <= limit then hits[..i] else hits[..limit]) && more == (i > limit)
    {
      if |matches| < limit { matches := matches + [hits[i]]; } else { more := true; }
    }
    assert hits[..|hits|] == hits;
  }

  method Page<E>(file: seq<Byte>, maxScan: nat, limit: int, cursor: int, select: seq<Byte> -> Option<E>) returns (res: PageResult<E>)
    ensures res == PageOf(WindowOf(file, maxScan), LimitOf(limit), cursor, select)
  {
    var w := WindowOf(file, maxScan);
    var (from, c) := WalkFrom(w, cursor);
    if from.None? { return PageResult([], w.truncated, false, c); }
    var hits, next := WalkWindow(w.data, w.start, from.value, select);
    var matches, more := CollectFirst(hits, LimitOf(limit));
    return PageResult(Entries(matches), w.truncated, more, if more then matches[|matches| - 1].end else next);
  }

  method PageBefore<E>(file: seq<Byte>, maxScan: nat, limit: int, before: int, select: seq<Byte> -> Option<E>) returns (res: PageResult<E>)
    ensures res == PageBeforeOf(WindowOf(file, maxScan), LimitOf(limit), before, select)
  {
    var w := WindowOf(file, maxScan);
    var (from, _) := WalkFrom(w, 0);
    if from.None? {
      assert WindowHits(w, select) == [];
      return PageResult([], w.truncated, false, 0);
    }
    var hits, _ := WalkWindow(w.data, w.start, from.value, select);
    var matches, dropped := CollectLast(hits, LimitOf(limit), before);
    return PageResult(Entries(matches), w.truncated, dropped, if |matches| > 0 then matches[0].start else 0);
  }

  method Tail<E>(file: seq<Byte>, maxScan: nat, limit: int, select: seq<Byte> -> Option<E>) returns (res: TailResult<E>)
    ensures res == TailOf(WindowOf(file, maxScan), LimitOf(limit), select)
  {
    var w := WindowOf(file, maxScan);
    var (from, _) := WalkFrom(w, 0);
    if from.None? {
      assert WindowHits(w, select) == [];
      return TailResult([], w.truncated);
    }
    var hits, _ := WalkWindow(w.data, w.start, from.value, select);
    var matches, dropped := CollectLast(hits, LimitOf(limit), 0);
    return TailResult(Entries(matches), dropped || w.truncated);
  }
}
