/** The assistant chat (`components/ChatBot.tsx`): a transcript that only
    grows, one question and one answer at a time, and the "Sources" block
    appended to a grounded answer. */
module Chat {
  import opened JsValue
  import opened JsString
  import opened Types

  const AssistantInstruction := "You are Genesis Assistant, a product design expert. Help the user refine their product strategy, answer technical questions, and suggest optimizations."

  const ErrorReply := "Sorry, I encountered an error. Please check your settings."

  const SourcesHeading := "\n\n**Sources:**\n"

  // ------------------------------------------------------------ sources

  /** `chunk.web?.uri`. */
  function LinkOf(chunk: GroundingChunk): (u: Option<string>)
    ensures u.Some? <==> chunk.web.Some? && chunk.web.value.uri.Some?
    ensures u.Some? ==> u == chunk.web.value.uri
  {
    match chunk.web
    case None => None
    case Some(web) => web.uri
  }

  /** `chunks.map(chunk => chunk.web?.uri).filter(Boolean)`: the non-empty
      addresses, in the order of the chunks. */
  function SourceLinks(chunks: seq<GroundingChunk>): (links: seq<string>)
    ensures |links| <= |chunks|
    ensures forall i :: 0 <= i < |links| ==> links[i] != ""
  {
    if chunks == [] then []
    else
      var head := if IsNonEmpty(LinkOf(chunks[0])) then [LinkOf(chunks[0]).value] else [];
      head + SourceLinks(chunks[1..])
  }

  /** An address is listed exactly when it is non-empty and some chunk
      carries it. */
  lemma {:induction false} SourceLinksMembership(chunks: seq<GroundingChunk>)
    ensures forall u :: u in SourceLinks(chunks) <==>
              u != "" && exists i :: 0 <= i < |chunks| && LinkOf(chunks[i]) == Some(u)
  {
    if chunks != [] {
      SourceLinksMembership(chunks[1..]);
      forall u | u != "" && (exists i :: 0 <= i < |chunks| && LinkOf(chunks[i]) == Some(u))
        ensures u in SourceLinks(chunks)
      {
        var i :| 0 <= i < |chunks| && LinkOf(chunks[i]) == Some(u);
        if i > 0 {
          assert LinkOf(chunks[1..][i - 1]) == Some(u);
        }
      }
      forall u | u in SourceLinks(chunks)
        ensures exists i :: 0 <= i < |chunks| && LinkOf(chunks[i]) == Some(u)
      {
        if u !in SourceLinks(chunks[1..]) {
          assert LinkOf(chunks[0]) == Some(u);
        } else {
          var i :| 0 <= i < |chunks[1..]| && LinkOf(chunks[1..][i]) == Some(u);
          assert LinkOf(chunks[i + 1]) == Some(u);
        }
      }
    }
  }

  /** The links come in the order of the chunks: the links of a list of
      chunks are those of its first part followed by those of the rest, and
      one chunk gives its address when that is non-empty and nothing
      otherwise. */
  lemma {:induction false} SourceLinksInChunkOrder(a: seq<GroundingChunk>, b: seq<GroundingChunk>)
    ensures SourceLinks(a + b) == SourceLinks(a) + SourceLinks(b)
    ensures |a| == 1 ==>
              SourceLinks(a) == if IsNonEmpty(LinkOf(a[0])) then [LinkOf(a[0]).value] else []
  {
    if a != [] {
      assert (a + b)[1..] == a[1..] + b;
      SourceLinksInChunkOrder(a[1..], b);
    } else {
      assert a + b == b;
    }
  }

  /** No element occurs twice. */
  predicate Distinct(s: seq<string>) {
    forall i, j :: 0 <= i < j < |s| ==> s[i] != s[j]
  }

  /** `Array.from(new Set(xs))`: each element is added when first met. */
  function Dedup(xs: seq<string>): (r: seq<string>)
    ensures Distinct(r)
    ensures forall x :: x in r <==> x in xs
    decreases |xs|
  {
    if xs == [] then []
    else
      var d := Dedup(xs[..|xs| - 1]);
      var x := xs[|xs| - 1];
      assert xs == xs[..|xs| - 1] + [x];
      if x in d then d else d + [x]
  }

  /** Where `x` first occurs in `xs`. */
  function FirstIndex(xs: seq<string>, x: string): (n: nat)
    requires x in xs
    ensures n < |xs| && xs[n] == x && x !in xs[..n]
  {
    if xs[0] == x then 0
    else
      var n := FirstIndex(xs[1..], x);
      assert xs[1..][..n] == xs[1..n + 1];
      n + 1
  }

  /** Extending `xs` does not move the first occurrence of what it holds. */
  lemma FirstIndexOfPrefix(xs: seq<string>, x: string, y: string)
    requires y in xs
    ensures FirstIndex(xs + [x], y) == FirstIndex(xs, y)
  {
    var s := xs + [x];
    var n := FirstIndex(xs, y);
    var m := FirstIndex(s, y);
    forall j | 0 <= j < n ensures s[j] != y {
      assert s[j] == xs[..n][j];
    }
    forall j | 0 <= j < m ensures s[j] != y {
      assert s[j] == s[..m][j];
    }
    assert s[n] == y;
  }

  /** The kept elements come in the order of their first occurrences. */
  lemma {:induction false} DedupFirstSeenOrder(xs: seq<string>)
    ensures forall i, j :: 0 <= i < j < |Dedup(xs)| ==>
              FirstIndex(xs, Dedup(xs)[i]) < FirstIndex(xs, Dedup(xs)[j])
    decreases |xs|
  {
    if xs != [] {
      var front := xs[..|xs| - 1];
      var x := xs[|xs| - 1];
      var d := Dedup(front);
      assert xs == front + [x];
      DedupFirstSeenOrder(front);
      forall k | 0 <= k < |d|
        ensures FirstIndex(xs, d[k]) == FirstIndex(front, d[k])
      {
        FirstIndexOfPrefix(front, x, d[k]);
      }
      if x !in d {
        assert x !in front;
        assert forall k :: 0 <= k < |front| ==> xs[k] == front[k];
        assert FirstIndex(xs, x) == |front|;
      }
    }
  }

  /** `- [u](u)`: the address as the text and the target of a link. */
  function LinkLine(u: string): (line: string)
    ensures |line| == 2 * |u| + 6
    ensures line[..3] == "- [" && line[3..3 + |u|] == u
    ensures line[3 + |u|..5 + |u|] == "](" && line[5 + |u|..5 + 2 * |u|] == u
    ensures line[5 + 2 * |u|..] == ")"
  {
    "- [" + u + "](" + u + ")"
  }

  function LinkLines(links: seq<string>): (lines: seq<string>)
    ensures |lines| == |links|
    ensures forall i :: 0 <= i < |links| ==> lines[i] == LinkLine(links[i])
  {
    seq(|links|, i requires 0 <= i < |links| => LinkLine(links[i]))
  }

  /** The block appended to a grounded answer: the heading, then one link
      line per address, separated by line breaks. */
  function SourcesBlock(links: seq<string>): (block: string)
    ensures |block| >= |SourcesHeading| && block[..|SourcesHeading|] == SourcesHeading
    ensures links == [] ==> block == SourcesHeading
    ensures |links| == 1 ==> block == SourcesHeading + LinkLine(links[0])
  {
    SourcesHeading + Join(LinkLines(links), '\n')
  }

  /** The block is read back line by line: after the heading, the lines
      are the link lines of the addresses, in order, provided no address
      holds a line break. */
  lemma SourcesBlockLines(links: seq<string>)
    requires |links| >= 1
    requires forall i :: 0 <= i < |links| ==> '\n' !in links[i]
    ensures SourcesBlock(links)[..|SourcesHeading|] == SourcesHeading
    ensures Split(SourcesBlock(links)[|SourcesHeading|..], '\n') == LinkLines(links)
  {
    var lines := LinkLines(links);
    forall i | 0 <= i < |lines| ensures '\n' !in lines[i] {
      var u := links[i];
      assert lines[i] == "- [" + u + "](" + u + ")";
    }
    SplitJoin(lines, '\n');
  }

  /** Whether a grounded answer gets a sources block:
      `useSearch && chunks?.length` and then `links.length > 0`. */
  predicate CitesSources(searchOn: bool, result: GenerationResult)
    ensures CitesSources(searchOn, result) ==> searchOn && |Dedup(SourceLinks(result.groundingChunks))| > 0
  {
    searchOn && |result.groundingChunks| > 0 && |SourceLinks(result.groundingChunks)| > 0
  }

  /** The assistant's text for an answer: the answer's text, followed by
      the sources block of its distinct addresses when sources are cited. */
  function ReplyContent(searchOn: bool, result: GenerationResult): (content: string)
    ensures |content| >= |result.text| && content[..|result.text|] == result.text
    ensures content == result.text <==> !CitesSources(searchOn, result)
    ensures CitesSources(searchOn, result) ==>
              content[|result.text|..] == SourcesBlock(Dedup(SourceLinks(result.groundingChunks)))
  {
    if CitesSources(searchOn, result) then
      var block := SourcesBlock(Dedup(SourceLinks(result.groundingChunks)));
      assert block[..2] == "\n\n";
      result.text + block
    else result.text
  }

  /** Sources are cited exactly when search was on at the send and some
      chunk carries a non-empty address. */
  lemma CitesSourcesIff(searchOn: bool, result: GenerationResult)
    ensures CitesSources(searchOn, result) <==>
              searchOn && exists i :: 0 <= i < |result.groundingChunks| && IsNonEmpty(LinkOf(result.groundingChunks[i]))
  {
    var chunks := result.groundingChunks;
    SourceLinksMembership(chunks);
    if exists i :: 0 <= i < |chunks| && IsNonEmpty(LinkOf(chunks[i])) {
      var i :| 0 <= i < |chunks| && IsNonEmpty(LinkOf(chunks[i]));
      assert LinkOf(chunks[i]).value in SourceLinks(chunks);
    }
    if |SourceLinks(chunks)| > 0 {
      var u := SourceLinks(chunks)[0];
      assert u in SourceLinks(chunks);
      var i :| 0 <= i < |chunks| && LinkOf(chunks[i]) == Some(u);
      assert IsNonEmpty(LinkOf(chunks[i]));
    }
  }

  /** The content of the assistant message closing an exchange: the reply
      when the call returned, the fixed apology when it threw. */
  function AssistantContent(searchOn: bool, outcome: Completion<GenerationResult>): (content: string)
    ensures outcome.Throw? ==> content == ErrorReply
    ensures outcome.Normal? ==>
              |content| >= |outcome.value.text| && content[..|outcome.value.text|] == outcome.value.text
  {
    match outcome
    case Normal(result) => ReplyContent(searchOn, result)
    case Throw(_) => ErrorReply
  }

  // --------------------------------------------------------- transcript

  /** The options of a chat call: search and thinking as toggled for a
      Gemini configuration, both off for any other provider. */
  function ChatOptions(config: AIConfig, searchOn: bool, thinkingOn: bool): (o: TextOptions)
    ensures o.systemInstruction == Some(AssistantInstruction)
    ensures config.provider == Gemini ==> o.useSearch == Some(searchOn) && o.useThinking == Some(thinkingOn)
    ensures config.provider != Gemini ==> o.useSearch == Some(false) && o.useThinking == Some(false)
  {
    var gemini := config.provider == Gemini;
    TextOptions(Some(AssistantInstruction), Some(gemini && searchOn), Some(gemini && thinkingOn))
  }

  /** The call a send starts, and the search toggle it was sent with (the
      answer is formatted with the toggle as it was at the send). */
  datatype PendingSend = PendingSend(prompt: string, config: AIConfig, options: TextOptions, searchOn: bool)

  /** Questions at even positions, answers at odd ones. */
  predicate Alternating(ms: seq<ChatMessage>) {
    forall i :: 0 <= i < |ms| ==> ms[i].role == (if i % 2 == 0 then User else Assistant)
  }

  /** Appending the message whose turn it is keeps the turns alternating. */
  lemma AlternatingSnoc(ms: seq<ChatMessage>, m: ChatMessage)
    requires Alternating(ms)
    requires m.role == (if |ms| % 2 == 0 then User else Assistant)
    ensures Alternating(ms + [m])
  {
  }

  class ChatBot {
    var messages: seq<ChatMessage>
    var input: string
    var loading: bool
    var useSearch: bool
    var useThinking: bool

    /** Every question is followed by its answer, and a question waits for
        its answer exactly while a call is in flight. */
    ghost predicate Valid()
      reads this
    {
      Alternating(messages) && (loading <==> |messages| % 2 == 1)
    }

    /** A fresh chat: no messages, no input, search on for Gemini only. */
    constructor(config: AIConfig)
      ensures Valid()
      ensures messages == [] && input == "" && !loading
      ensures useSearch == (config.provider == Gemini) && !useThinking
    {
      messages := [];
      input := "";
      loading := false;
      useSearch := config.provider == Gemini;
      useThinking := false;
    }

    /** Typing in the input field. */
    method SetInput(text: string)
      requires Valid()
      modifies this
      ensures Valid()
      ensures input == text
      ensures messages == old(messages) && loading == old(loading)
      ensures useSearch == old(useSearch) && useThinking == old(useThinking)
    {
      input := text;
    }

    /** The "Search Grounding" button. */
    method ToggleSearch()
      requires Valid()
      modifies this
      ensures Valid()
      ensures useSearch == !old(useSearch)
      ensures messages == old(messages) && input == old(input) && loading == old(loading)
      ensures useThinking == old(useThinking)
    {
      useSearch := !useSearch;
    }

    /** The "Thinking Mode" button. */
    method ToggleThinking()
      requires Valid()
      modifies this
      ensures Valid()
      ensures useThinking == !old(useThinking)
      ensures messages == old(messages) && input == old(input) && loading == old(loading)
      ensures useSearch == old(useSearch)
    {
      useThinking := !useThinking;
    }

    /** The first half of `handleSend`, up to the call: ignored for a blank
        input or while a call is in flight; otherwise the raw input is
        appended as a question and sent, and the field is cleared. */
    method BeginSend(config: AIConfig, now: int) returns (pending: Option<PendingSend>)
      requires Valid()
      modifies this
      ensures Valid()
      ensures pending.None? <==> Trim(old(input)) == "" || old(loading)
      ensures pending.None? ==>
                messages == old(messages) && input == old(input) && loading == old(loading)
      ensures pending.Some? ==>
                && messages == old(messages) + [ChatMessage(User, old(input), now, None)]
                && input == ""
                && loading
                && pending.value == PendingSend(old(input), config, ChatOptions(config, old(useSearch), old(useThinking)), old(useSearch))
      ensures useSearch == old(useSearch) && useThinking == old(useThinking)
    {
      if Trim(input) == "" || loading {
        return None;
      }
      pending := Some(PendingSend(input, config, ChatOptions(config, useSearch, useThinking), useSearch));
      AlternatingSnoc(messages, ChatMessage(User, input, now, None));
      messages := messages + [ChatMessage(User, input, now, None)];
      input := "";
      loading := true;
    }

    /** The second half of `handleSend`, once the call has returned or
        thrown: the answer (or the apology) is appended and the chat is
        ready again. */
    method FinishSend(pending: PendingSend, outcome: Completion<GenerationResult>, now: int)
      requires Valid() && loading
      modifies this
      ensures Valid()
      ensures messages == old(messages) + [ChatMessage(Assistant, AssistantContent(pending.searchOn, outcome), now, None)]
      ensures !loading
      ensures input == old(input) && useSearch == old(useSearch) && useThinking == old(useThinking)
    {
      AlternatingSnoc(messages, ChatMessage(Assistant, AssistantContent(pending.searchOn, outcome), now, None));
      messages := messages + [ChatMessage(Assistant, AssistantContent(pending.searchOn, outcome), now, None)];
      loading := false;
    }

    /** A whole `handleSend` with no interleaved event: an accepted send adds
        exactly one question and its answer, a refused one adds nothing. */
    method HandleSend(config: AIConfig, outcome: Completion<GenerationResult>, sentAt: int, answeredAt: int)
      returns (pending: Option<PendingSend>)
      requires Valid()
      modifies this
      ensures Valid()
      ensures pending.None? <==> Trim(old(input)) == "" || old(loading)
      ensures pending.None? ==> messages == old(messages) && input == old(input)
      ensures pending.Some? ==>
                && messages == old(messages) + [ChatMessage(User, old(input), sentAt, None),
                                                ChatMessage(Assistant, AssistantContent(old(useSearch), outcome), answeredAt, None)]
                && input == ""
                && !loading
      ensures useSearch == old(useSearch) && useThinking == old(useThinking)
    {
      pending := BeginSend(config, sentAt);
      if pending.Some? {
        FinishSend(pending.value, outcome, answeredAt);
      }
    }
  }
}
