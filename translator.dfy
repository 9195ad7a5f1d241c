/**
 * `translate_text` of the back end: a guard against near-empty input,
 * one remote call for text up to 5000 characters, and for longer text
 * 5000-character chunks translated in order and joined with single
 * spaces; every failure is turned into a message string. The remote
 * service is a parameter: `setupError` is the message of the exception
 * raised when the translator cannot be built for the target language
 * (`None` when it can), and `translate` is what one call returns for a
 * piece of text.
 */
module Translator {
  import opened Wrappers
  import opened Text

  /** What one remote call gives back: a string, Python's `None`, or an
      exception with its message. */
  datatype Reply = Str(s: string) | NoneValue | Raised(message: string)

  /** The largest piece sent in one call. */
  const MaxLength: nat := 5000

  const TooShort: string := "Text too short to translate."
  const NoOutput: string := "Translation produced no output."
  const ErrorPrefix: string := "Translation error: "

  // ---------------------------------------------------------------------
  // Chunking

  /** `[text[i:i+n] for i in range(0, len(text), n)]`. */
  function Chunks(s: string, n: nat): (cs: seq<string>)
    requires n > 0
    ensures forall k :: 0 <= k < |cs| ==> 0 < |cs[k]| <= n
    decreases |s|
  {
    if s == [] then []
    else if |s| <= n then [s]
    else [s[..n]] + Chunks(s[n..], n)
  }

  function Concat(cs: seq<string>): string
  {
    if cs == [] then [] else cs[0] + Concat(cs[1..])
  }

  /** The chunks put back together are the text. */
  lemma {:induction false} ChunksConcat(s: string, n: nat)
    requires n > 0
    ensures Concat(Chunks(s, n)) == s
    decreases |s|
  {
    if |s| > n {
      ChunksConcat(s[n..], n);
      assert Chunks(s, n)[1..] == Chunks(s[n..], n);
      assert s[..n] + s[n..] == s;
    } else if s != [] {
      assert Chunks(s, n)[1..] == [];
    }
  }

  /** Every 5000-character chunk but the last is full, and there are
      ceil(|s| / 5000) of them: the fewest chunks that cover `s`. */
  lemma {:induction false} ChunkSizes(s: string)
    ensures forall k :: 0 <= k < |Chunks(s, MaxLength)| - 1 ==> |Chunks(s, MaxLength)[k]| == MaxLength
    ensures (|Chunks(s, MaxLength)| - 1) * MaxLength < |s| <= |Chunks(s, MaxLength)| * MaxLength
    decreases |s|
  {
    if |s| > MaxLength {
      var cs, rest := Chunks(s, MaxLength), Chunks(s[MaxLength..], MaxLength);
      ChunkSizes(s[MaxLength..]);
      assert forall k :: 1 <= k < |cs| ==> cs[k] == rest[k - 1];
    }
  }

  /** Text longer than `n` makes at least two chunks. */
  lemma LongTextSplits(s: string, n: nat)
    requires 0 < n < |s|
    ensures |Chunks(s, n)| >= 2
  {
    assert Chunks(s[n..], n) != [];
  }

  /** Text no longer than `n` is one chunk, itself. */
  lemma ShortTextOneChunk(s: string, n: nat)
    requires 0 < |s| <= n
    ensures Chunks(s, n) == [s]
  {
  }

  // ---------------------------------------------------------------------
  // The loop over chunks and the join

  /** Where the loop over chunks ends: stopped by the first exception,
      or with every reply collected in order. */
  datatype Collected = Stopped(message: string) | Replies(rs: seq<Reply>)

  /** The loop over `chunks`, written over its prefix so that it reads in
      the order of the calls. */
  function Collect(translate: string -> Reply, chunks: seq<string>): (c: Collected)
    ensures c.Replies? ==> |c.rs| == |chunks| && forall k :: 0 <= k < |c.rs| ==> !c.rs[k].Raised?
  {
    if chunks == [] then Replies([])
    else match Collect(translate, chunks[..|chunks| - 1])
      case Stopped(m) => Stopped(m)
      case Replies(rs) =>
        match translate(chunks[|chunks| - 1])
        case Raised(m) => Stopped(m)
        case r => Replies(rs + [r])
  }

  /** Joining with single spaces. */
  function JoinSpace(strs: seq<string>): string
  {
    if strs == [] then [] else if |strs| == 1 then strs[0] else strs[0] + " " + JoinSpace(strs[1..])
  }

  /** The message of the `TypeError` that `' '.join` raises at the first
      item that is not a string. */
  function NotStrMessage(k: nat): string
  {
    "sequence item " + Decimal(k) + ": expected str instance, NoneType found"
  }

  /** `' '.join(translated_chunks)`, or the `TypeError` raised at the first
      `None`. */
  function JoinReplies(rs: seq<Reply>): (r: Reply)
    requires forall k :: 0 <= k < |rs| ==> !rs[k].Raised?
    ensures r.NoneValue? == false
  {
    match FirstNone(rs)
    case Some(k) => Raised(NotStrMessage(k))
    case None => Str(JoinSpace(seq(|rs|, k requires 0 <= k < |rs| => rs[k].s)))
  }

  /** The position of the first `None` reply. */
  function FirstNone(rs: seq<Reply>): (r: Option<nat>)
    ensures r.None? <==> forall k :: 0 <= k < |rs| ==> !rs[k].NoneValue?
    ensures r.Some? ==> r.value < |rs| && rs[r.value].NoneValue? && forall j :: 0 <= j < r.value ==> !rs[j].NoneValue?
  {
    if rs == [] then None
    else if rs[0].NoneValue? then Some(0)
    else match FirstNone(rs[1..])
         case None => None
         case Some(k) => Some(k + 1)
  }

  /** `if result: return result else: return "..."` and the `except`. */
  function Finish(r: Reply): string
  {
    match r
    case Str(s) => if s == [] then NoOutput else s
    case NoneValue => NoOutput
    case Raised(m) => ErrorPrefix + m
  }

  /** What the `try` block of the chunked path ends with: the join, or
      the exception of the first failing call. */
  function ChunkedReply(text: string, translate: string -> Reply): Reply
    requires |text| > MaxLength
  {
    match Collect(translate, Chunks(text, MaxLength))
    case Stopped(m) => Raised(m)
    case Replies(rs) => JoinReplies(rs)
  }

  /** What `translate_text` returns. */
  function Translation(text: string, setupError: Option<string>, translate: string -> Reply): string
  {
    if text == [] || |PyStrip(text)| < 3 then TooShort
    else if setupError.Some? then ErrorPrefix + setupError.value
    else if |text| > MaxLength then
      Finish(ChunkedReply(text, translate))
    else Finish(translate(text))
  }

  /** `translate_text`, with its loop over the chunks. */
  method TranslateText(text: string, setupError: Option<string>, translate: string -> Reply) returns (result: string)
    ensures result == Translation(text, setupError, translate)
  {
    if text == [] || |PyStrip(text)| < 3 {
      return TooShort;
    }
    if setupError.Some? {
      return ErrorPrefix + setupError.value;
    }
    var reply: Reply;
    if |text| > MaxLength {
      var chunks := Chunks(text, MaxLength);
      var translatedChunks: seq<Reply> := [];
      var i := 0;
      while i < |chunks|
        invariant 0 <= i <= |chunks|
        invariant Collect(translate, chunks[..i]) == Replies(translatedChunks)
      {
        assert chunks[..i + 1][..i] == chunks[..i];
        var translatedChunk := translate(chunks[i]);
        if translatedChunk.Raised? {
          StoppedStaysStopped(translate, chunks, i + 1);
          return ErrorPrefix + translatedChunk.message;
        }
        translatedChunks := translatedChunks + [translatedChunk];
        i := i + 1;
      }
      assert chunks[..i] == chunks;
      reply := JoinReplies(translatedChunks);
    } else {
      reply := translate(text);
    }
    result := Finish(reply);
  }

  /** Once the loop has stopped it stays stopped with the same message:
      later chunks are never sent. */
  lemma {:induction false} StoppedStaysStopped(translate: string -> Reply, chunks: seq<string>, i: nat)
    requires i <= |chunks| && Collect(translate, chunks[..i]).Stopped?
    ensures Collect(translate, chunks) == Collect(translate, chunks[..i])
    decreases |chunks| - i
  {
    if i < |chunks| {
      assert chunks[..i + 1][..i] == chunks[..i];
      StoppedStaysStopped(translate, chunks, i + 1);
    } else {
      assert chunks[..i] == chunks;
    }
  }

  // ---------------------------------------------------------------------
  // What the caller sees

  /** Empty or near-empty text is answered without the translator: the
      result is the same whatever the service would do. */
  lemma ShortTextNotTranslated(text: string, e1: Option<string>, t1: string -> Reply, e2: Option<string>, t2: string -> Reply)
    requires text == [] || |PyStrip(text)| < 3
    ensures Translation(text, e1, t1) == TooShort == Translation(text, e2, t2)
  {
  }

  /** Text of up to 5000 characters is translated in a single call: the
      result depends only on the reply for the whole text. */
  lemma SingleCall(text: string, t1: string -> Reply, t2: string -> Reply)
    requires text != [] && |PyStrip(text)| >= 3 && |text| <= MaxLength
    requires t1(text) == t2(text)
    ensures Translation(text, None, t1) == Translation(text, None, t2)
  {
  }

  /** The three outcomes of the single call: a non-empty string is the
      result, an empty string or `None` is the no-output message, and an
      exception is reported with its message. */
  lemma SingleCallOutcome(text: string, translate: string -> Reply)
    requires text != [] && |PyStrip(text)| >= 3 && |text| <= MaxLength
    ensures translate(text).Str? && translate(text).s != [] ==> Translation(text, None, translate) == translate(text).s
    ensures translate(text) == Str([]) || translate(text).NoneValue? ==> Translation(text, None, translate) == NoOutput
    ensures translate(text).Raised? ==> Translation(text, None, translate) == ErrorPrefix + translate(text).message
  {
  }

  /** When every chunk comes back as a string, the result is those
      strings, in chunk order, joined by single spaces. */
  lemma ChunkedTranslation(text: string, translate: string -> Reply)
    requires text != [] && |PyStrip(text)| >= 3 && |text| > MaxLength
    requires forall c :: c in Chunks(text, MaxLength) ==> translate(c).Str?
    ensures var cs := Chunks(text, MaxLength);
            Translation(text, None, translate)
            == JoinSpace(seq(|cs|, k requires 0 <= k < |cs| => translate(cs[k]).s))
  {
    var cs := Chunks(text, MaxLength);
    assert forall k :: 0 <= k < |cs| ==> cs[k] in cs;
    AllRepliesCollected(translate, cs);
    var rs := seq(|cs|, k requires 0 <= k < |cs| => translate(cs[k]));
    assert seq(|rs|, k requires 0 <= k < |rs| => rs[k].s) == seq(|cs|, k requires 0 <= k < |cs| => translate(cs[k]).s);
    LongTextSplits(text, MaxLength);
    JoinSpaceNotEmpty(seq(|cs|, k requires 0 <= k < |cs| => translate(cs[k]).s));
  }

  /** Without exceptions the loop collects every reply, in order. */
  lemma {:induction false} AllRepliesCollected(translate: string -> Reply, chunks: seq<string>)
    requires forall c :: c in chunks ==> !translate(c).Raised?
    ensures Collect(translate, chunks) == Replies(seq(|chunks|, k requires 0 <= k < |chunks| => translate(chunks[k])))
  {
    if chunks != [] {
      var init := chunks[..|chunks| - 1];
      assert forall c :: c in init ==> c in chunks;
      AllRepliesCollected(translate, init);
    }
  }

  /** Two or more pieces joined by spaces are never empty. */
  lemma JoinSpaceNotEmpty(strs: seq<string>)
    requires |strs| >= 2
    ensures JoinSpace(strs) != []
  {
  }

  /** The first chunk whose call raises decides the message; the chunks
      after it are never sent. */
  lemma FirstFailingChunk(text: string, translate: string -> Reply, i: nat)
    requires text != [] && |PyStrip(text)| >= 3 && |text| > MaxLength
    requires i < |Chunks(text, MaxLength)|
    requires translate(Chunks(text, MaxLength)[i]).Raised?
    requires forall k :: 0 <= k < i ==> !translate(Chunks(text, MaxLength)[k]).Raised?
    ensures Translation(text, None, translate) == ErrorPrefix + translate(Chunks(text, MaxLength)[i]).message
  {
    var cs := Chunks(text, MaxLength);
    assert forall c :: c in cs[..i] ==> !translate(c).Raised?;
    AllRepliesCollected(translate, cs[..i]);
    assert cs[..i + 1][..i] == cs[..i];
    StoppedStaysStopped(translate, cs, i + 1);
  }

  /** A chunk answered with `None` makes the join raise; the message
      names the first such chunk. */
  lemma NoneChunk(text: string, translate: string -> Reply, i: nat)
    requires text != [] && |PyStrip(text)| >= 3 && |text| > MaxLength
    requires i < |Chunks(text, MaxLength)|
    requires forall c :: c in Chunks(text, MaxLength) ==> !translate(c).Raised?
    requires translate(Chunks(text, MaxLength)[i]).NoneValue?
    requires forall k :: 0 <= k < i ==> !translate(Chunks(text, MaxLength)[k]).NoneValue?
    ensures Translation(text, None, translate) == ErrorPrefix + NotStrMessage(i)
  {
    var cs := Chunks(text, MaxLength);
    AllRepliesCollected(translate, cs);
    var rs := seq(|cs|, k requires 0 <= k < |cs| => translate(cs[k]));
    assert Collect(translate, cs) == Replies(rs);
    assert rs[i].NoneValue? && forall k :: 0 <= k < i ==> !rs[k].NoneValue?;
    assert FirstNone(rs) == Some(i);
    assert JoinReplies(rs) == Raised(NotStrMessage(i));
  }

  /** The translator failing to start reports its message. */
  lemma SetupFailure(text: string, message: string, translate: string -> Reply)
    requires text != [] && |PyStrip(text)| >= 3
    ensures Translation(text, Some(message), translate) == ErrorPrefix + message
  {
  }

  /** For long text the no-output branch is never taken: at least two
      chunks are joined, so the joined string has a space in it, and any
      failure is reported as an error. */
  lemma LongTextAlwaysHasOutput(text: string, translate: string -> Reply)
    requires |text| > MaxLength
    ensures ChunkedReply(text, translate) != Str([])
    ensures !ChunkedReply(text, translate).NoneValue?
  {
    var cs := Chunks(text, MaxLength);
    LongTextSplits(text, MaxLength);
    match Collect(translate, cs)
    case Stopped(m) =>
    case Replies(rs) =>
      if FirstNone(rs).None? {
        JoinSpaceNotEmpty(seq(|rs|, k requires 0 <= k < |rs| => rs[k].s));
      }
  }
}
