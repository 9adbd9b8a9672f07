/**
 compressSessionHistory from end to end: count, read, summarise, replace, on the
 store object, with the messages that other callers append between those calls
 given as parameters.
 */
module SessionCompression {
  import opened History
  import opened SessionHistory
  import opened CompressionReplace
  import opened CompressionRace
  import opened SessionStore
  import C = Compression

  /** messagesToCompressed. */
  function ToCompressed(msgs: seq<Message>): (r: seq<C.Message>)
    ensures |r| == |msgs|
  {
    seq(|msgs|, i requires 0 <= i < |msgs| => C.Message(if msgs[i].role == "assistant" then "assistant" else "user", msgs[i].text))
  }

  /** What other callers append while this one is between two calls of the store. */
  method AppendOthers(store: MemorySessionStore, xs: seq<Append>)
    modifies store
    ensures store.Contents() == AppendAll(old(store.Contents()), xs)
  {
    for i := 0 to |xs|
      invariant store.Contents() == AppendAll(old(store.Contents()), xs[..i])
    {
      assert xs[..i + 1][..i] == xs[..i];
      var _ := store.SaveMessageLocked(xs[i].session, xs[i].arrival, true);
    }
    assert xs[..|xs|] == xs;
  }

  /** The text of the one summary of a compressed view. */
  function SummaryText(view: C.View): (text: string)
    requires view.wasCompressed && view.protectedFirst < |view.messages|
  {
    view.messages[C.SummaryIndex(view)].content
  }

  /** What the session is after a compression with this view. */
  ghost predicate CompressedBy(view: C.View, s2: Store, session: string, log1: Log, count: nat, result: Log,
                               identity: string, now: int, newId: string) {
    && view.protectedFirst < |view.messages| && view.wasCompressed
    && view.protectedFirst + view.protectedLast < count <= |log1| <= |LogOf(s2, session)|
    && LosesNothing(s2, session, log1, count, view.protectedFirst, view.protectedLast, identity, SummaryText(view), now, newId, result)
  }

  /** What the store must be like: in order, with a new id, and no id of the messages read holding the legacy separator. */
  ghost predicate Ready(s0: Store, session: string, before: seq<Append>, between: seq<Append>, newId: string) {
    var s1 := AppendAll(s0, before);
    && StoreValid(s0) && newId != "" && !HasId(LogOf(AppendAll(s1, between), session), newId)
    && SeparatorFree(session, Recent(LogOf(s1, session), |LogOf(s0, session)|))
  }

  /** What a compressed view and the theorem about the store say together. */
  lemma ViewLosesNothing(s0: Store, session: string, before: seq<Append>, between: seq<Append>, s1: Store, s2: Store,
                         view: C.View, identity: string, now: int, newId: string, result: Log)
    requires Ready(s0, session, before, between, newId) && s1 == AppendAll(s0, before) && s2 == AppendAll(s1, between)
    requires view.wasCompressed && view.protectedFirst < |view.messages|
    requires view.protectedFirst + view.protectedLast < |LogOf(s0, session)| <= |LogOf(s1, session)|
    requires result == ReadReplaced(s2, session, ReadAll(Recent(LogOf(s1, session), |LogOf(s0, session)|)),
                                    view.protectedFirst, view.protectedLast, identity, SummaryText(view), now, newId)
    ensures CompressedBy(view, s2, session, LogOf(s1, session), |LogOf(s0, session)|, result, identity, now, newId)
  {
    CompressionLosesNothing(s0, session, before, between, s1, s2, view.protectedFirst, view.protectedLast,
                            identity, SummaryText(view), now, newId);
  }

  /** As many messages are read from the end of `log1` as there were in `log0`. */
  ghost predicate ReadsAsMany(log0: Log, log1: Log) {
    && |log0| <= |log1| && |Recent(log1, |log0|)| == |log0|
    && (|log0| > 0 ==> Recent(log1, |log0|) == log1[|log1| - |log0|..])
  }

  lemma ExtendedReads(log0: Log, log1: Log)
    requires Extends(log0, log1)
    ensures ReadsAsMany(log0, log1)
  {
  }

  /** The messages read after the first appends: as many as were counted. */
  lemma ReadsCounted(s0: Store, session: string, before: seq<Append>)
    requires StoreValid(s0)
    ensures ReadsAsMany(LogOf(s0, session), LogOf(AppendAll(s0, before), session))
  {
    var log0, log1 := LogOf(s0, session), LogOf(AppendAll(s0, before), session);
    assert Extends(log0, log1) by { AppendsExtend(s0, before, session); }
    ExtendedReads(log0, log1);
  }

  /** Both outcomes of compressSessionHistory: nothing was compressed and nothing is written, or the view was carried out. */
  ghost predicate SessionOutcome(s0: Store, s3: Store, session: string, cfg: C.Config, before: seq<Append>, between: seq<Append>,
                                 identity: string, now: int, newId: string, view: C.View) {
    var s1, count := AppendAll(s0, before), |LogOf(s0, session)|;
    var read := ToCompressed(ReadAll(Recent(LogOf(s1, session), count)));
    && (view.wasCompressed <==> cfg.enabled && cfg.contextWindow > 0 && C.Total(read) > C.Threshold(cfg) && read != [])
    && (!view.wasCompressed ==> s3 == s1)
    && (view.wasCompressed ==>
          && C.Compresses(read, view)
          && CompressedBy(view, AppendAll(s1, between), session, LogOf(s1, session), count, LogOf(s3, session), identity, now, newId))
  }

  /** The replacement a view asks for, of the messages that were read. */
  method ReplaceWithView(store: MemorySessionStore, session: string, read: seq<Message>, view: C.View,
                         identity: string, now: int, newId: string)
    requires view.wasCompressed && view.protectedFirst < |view.messages|
    requires view.protectedFirst + view.protectedLast < |read|
    modifies store
    ensures LogOf(store.Contents(), session)
            == ReadReplaced(old(store.Contents()), session, read,
                            view.protectedFirst, view.protectedLast, identity, SummaryText(view), now, newId)
  {
    store.ReplaceMessages(session,
                          Arrivals(CompressedHistory(read, view.protectedFirst, view.protectedLast, identity, SummaryText(view)), now, newId),
                          Ids(read));
  }

  /**
   The whole of compressSessionHistory. Nothing is written when the view says that
   nothing was compressed; otherwise the ends it protects are the ends that are
   kept, and its summary is the one message that is new.
   */
  method CompressSessionHistory(store: MemorySessionStore, session: string, cfg: C.Config, summarise: seq<C.Message> -> string,
                                identity: string, before: seq<Append>, between: seq<Append>, now: int, newId: string)
    returns (view: C.View, loaded: nat)
    requires Ready(store.Contents(), session, before, between, newId)
    modifies store
    ensures loaded == |LogOf(old(store.Contents()), session)|
    ensures SessionOutcome(old(store.Contents()), store.Contents(), session, cfg, before, between, identity, now, newId, view)
  {
    ghost var s0 := store.Contents();
    loaded := store.MessageCount(session);
    AppendOthers(store, before);
    ghost var s1 := store.Contents();
    ReadsCounted(s0, session, before);
    var read := store.RecentMessages(session, loaded);
    view := C.CompressHistory(ToCompressed(read), cfg, summarise);
    if !view.wasCompressed { return; }
    AppendOthers(store, between);
    ghost var s2 := store.Contents();
    ReplaceWithView(store, session, read, view, identity, now, newId);
    ViewLosesNothing(s0, session, before, between, s1, s2, view, identity, now, newId, LogOf(store.Contents(), session));
  }
}
