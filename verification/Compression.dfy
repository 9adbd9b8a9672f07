/**
 Context compression: replace the middle of a conversation by one summary once
 its estimated tokens pass a threshold. The text of the summary is a parameter.
 */
module Compression {

  datatype Message = Message(role: string, content: string)

  datatype Config = Config(enabled: bool, threshold: real, contextWindow: int, maxPromptTokens: int,
                           protectFirst: nat, protectLast: nat)

  datatype View = View(messages: seq<Message>, wasCompressed: bool, tokensBefore: nat, tokensAfter: nat,
                       protectedFirst: nat, protectedLast: nat)

  function Ascii(s: string): (n: nat)
    ensures n <= |s|
  {
    if s == "" then 0 else Ascii(s[..|s| - 1]) + (if s[|s| - 1] as int < 128 then 1 else 0)
  }

  /** Four ASCII characters to a token, one token for any other character. */
  function Tokens(s: string): (n: nat) {
    Ascii(s) / 4 + (|s| - Ascii(s))
  }

  method TokenEstimate(s: string) returns (tokens: nat)
    ensures tokens == Tokens(s)
  {
    var ascii, nonAscii := 0, 0;
    for i := 0 to |s|
      invariant ascii == Ascii(s[..i]) && nonAscii == i - Ascii(s[..i])
    {
      assert s[..i + 1][..i] == s[..i];
      if s[i] as int < 128 { ascii := ascii + 1; } else { nonAscii := nonAscii + 1; }
    }
    assert s[..|s|] == s;
    tokens := ascii / 4 + nonAscii;
  }

  function Total(messages: seq<Message>): (n: nat) {
    if messages == [] then 0 else Total(messages[..|messages| - 1]) + Tokens(messages[|messages| - 1].content)
  }

  method EstimateTotal(messages: seq<Message>) returns (total: nat)
    ensures total == Total(messages)
  {
    total := 0;
    for i := 0 to |messages|
      invariant total == Total(messages[..i])
    {
      assert messages[..i + 1][..i] == messages[..i];
      var n := TokenEstimate(messages[i].content);
      total := total + n;
    }
    assert messages[..|messages|] == messages;
  }

  /** At most `n` characters of `s`: all of it, or a beginning of it that ends in dots when there is room for them. */
  function Truncate(s: string, n: int): (r: string)
    ensures |r| <= if n < 0 then 0 else n
    ensures |s| <= n ==> r == s
    ensures 0 < n < |s| ==> |r| == n && (if n <= 3 then r <= s else r[..n - 3] <= s && r[n - 3..] == "...")
  {
    if n <= 0 then ""
    else if |s| <= n then s
    else if n <= 3 then s[..n]
    else s[..n - 3] + "..."
  }

  /** Go converts a float to an int by dropping its fraction. */
  function ToInt(r: real): (n: int) {
    if r >= 0.0 then r.Floor else -((-r).Floor)
  }

  function Threshold(cfg: Config): (n: int) {
    if cfg.maxPromptTokens > 0 then cfg.maxPromptTokens else ToInt(cfg.contextWindow as real * cfg.threshold)
  }

  function Min(a: int, b: int): (r: int) { if a < b then a else b }

  /** The view that keeps `first` messages and `last` messages around a summary of the rest. */
  function Kept(messages: seq<Message>, first: nat, last: nat, summary: string): (r: seq<Message>)
    requires first + last <= |messages|
  {
    messages[..first] + [Message("system", summary)] + messages[|messages| - last..]
  }

  predicate IsAscii(s: string) { forall i :: 0 <= i < |s| ==> s[i] as int < 128 }

  // ---- token arithmetic ----

  lemma {:induction false} AsciiAll(s: string)
    requires IsAscii(s)
    ensures Ascii(s) == |s|
  {
    if s != "" { AsciiAll(s[..|s| - 1]); }
  }

  lemma TokensBound(s: string)
    ensures Tokens(s) <= |s|
    ensures IsAscii(s) ==> Tokens(s) == |s| / 4
  {
    if IsAscii(s) { AsciiAll(s); }
  }

  lemma {:induction false} TotalConcat(a: seq<Message>, b: seq<Message>)
    ensures Total(a + b) == Total(a) + Total(b)
  {
    if b == [] {
      assert a + b == a;
    } else {
      var n := |b| - 1;
      TotalConcat(a, b[..n]);
      assert (a + b)[..|a + b| - 1] == a + b[..n];
    }
  }

  lemma TotalOne(m: Message)
    ensures Total([m]) == Tokens(m.content)
  {
    assert [m][..0] == [];
  }

  /** A summary of nothing only adds tokens. */
  lemma SummaryOfNothing(messages: seq<Message>, first: nat, last: nat, summary: string)
    requires first + last == |messages|
    ensures Total(Kept(messages, first, last, summary)) >= Total(messages)
  {
    var head, tail := messages[..first], messages[first..];
    var mid := [Message("system", summary)];
    assert messages == head + tail;
    TotalConcat(head, tail);
    TotalConcat(head, mid);
    TotalConcat(head + mid, tail);
  }

  /** The bound on a summary's characters. */
  function SummaryCap(threshold: int): (n: nat)
    ensures n >= 1
  {
    if threshold * 4 < 1 then 1 else threshold * 4
  }

  /** A truncated summary fits the bound for every threshold, and the threshold itself, or zero, when it is ASCII. */
  lemma TruncatedFits(summary: string, threshold: int)
    ensures var cut := Truncate(summary, SummaryCap(threshold));
            && Tokens(cut) <= SummaryCap(threshold)
            && (IsAscii(summary) ==> Tokens(cut) <= if threshold > 0 then threshold else 0)
  {
    var cut := Truncate(summary, SummaryCap(threshold));
    TokensBound(cut);
    if IsAscii(summary) { TruncateAscii(summary, SummaryCap(threshold)); }
  }

  lemma TruncateAscii(s: string, n: int)
    requires IsAscii(s)
    ensures IsAscii(Truncate(s, n))
  {
  }

  // ---- CompressHistory ----

  /** What a compressed view is: the ends of the input around one summary, with a middle that was not empty. */
  ghost predicate Compresses(messages: seq<Message>, view: View) {
    && view.wasCompressed
    && view.protectedFirst + view.protectedLast < |messages|
    && view.protectedFirst < |view.messages|
    && view.messages == Kept(messages, view.protectedFirst, view.protectedLast, view.messages[view.protectedFirst].content)
    && view.tokensBefore == Total(messages)
    && view.tokensAfter == Total(view.messages)
  }

  /**
   The loop that shrinks the protected ends until the view fits. `summarise` is
   the text of the summary.
   */
  method CompressHistory(messages: seq<Message>, cfg: Config, summarise: seq<Message> -> string) returns (view: View)
    ensures view.wasCompressed <==>
            cfg.enabled && cfg.contextWindow > 0 && Total(messages) > Threshold(cfg) && messages != []
    ensures !view.wasCompressed ==> view.messages == messages && view.tokensAfter == Total(messages)
    ensures view.wasCompressed ==>
            && Compresses(messages, view)
            && view.protectedLast <= cfg.protectLast && view.protectedFirst <= cfg.protectFirst
    ensures view.wasCompressed ==>
            var removed := messages[view.protectedFirst..|messages| - view.protectedLast];
            var cap := SummaryCap(Threshold(cfg));
            && view.tokensAfter <= cap
            && (IsAscii(summarise(removed)) ==> view.tokensAfter <= if Threshold(cfg) > 0 then Threshold(cfg) else 0)
            && (view.tokensAfter <= Threshold(cfg) || view.messages == [Message("system", Truncate(summarise(removed), cap))])
    ensures view.wasCompressed && view.protectedFirst + view.protectedLast > 0 ==> view.tokensAfter <= Threshold(cfg)
  {
    var total := EstimateTotal(messages);
    if !cfg.enabled || cfg.contextWindow <= 0 { return View(messages, false, 0, total, 0, 0); }
    var threshold := Threshold(cfg);
    if total <= threshold || messages == [] { return View(messages, false, total, total, 0, 0); }
    var last := Min(cfg.protectLast, |messages|);
    var first := Min(cfg.protectFirst, |messages| - last);
    while true
      invariant 0 <= last <= cfg.protectLast && 0 <= first <= cfg.protectFirst && first + last <= |messages|
      decreases first + last
    {
      var removed := messages[first..|messages| - last];
      var summary := summarise(removed);
      var compressed := Kept(messages, first, last, summary);
      var tokens := EstimateTotal(compressed);
      if first + last == |messages| { SummaryOfNothing(messages, first, last, summary); }
      if tokens <= threshold || (first == 0 && last == 0) {
        if tokens > threshold && first == 0 && last == 0 {
          var maxChars := SummaryCap(threshold);
          compressed := [compressed[0].(content := Truncate(compressed[0].content, maxChars))];
          assert compressed == Kept(messages, 0, 0, Truncate(summary, maxChars));
          TotalOne(compressed[0]);
          TruncatedFits(summary, threshold);
          tokens := EstimateTotal(compressed);
        }
        return View(compressed, true, total, tokens, first, last);
      }
      if last > 0 { last := last - 1; } else { first := first - 1; }
    }
  }

  /** SummaryIndex: where the generated summary sits, or -1. */
  function SummaryIndex(view: View): (i: int)
    ensures i >= 0 <==> view.wasCompressed
  {
    if view.wasCompressed then view.protectedFirst else -1
  }
}
