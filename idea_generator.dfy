/** The idea brainstormer (`components/IdeaGenerator.tsx`): the request it
    sends for a topic and the lines it keeps from the answer. */
module IdeaGenerator {
  import opened JsValue
  import opened JsString
  import opened Types

  const StrategistInstruction := "You are an expert product strategist specialized in blue ocean opportunities."

  const IdeasPromptHead := "Generate 5 innovative product ideas or features related to: \""

  const IdeasPromptRest := ". Provide short, catchy names and a one-sentence value proposition for each."

  /** The prompt: the fixed head, the topic in quotes, then the request for
      names and value propositions. */
  function IdeasPrompt(topic: string): (prompt: string)
    ensures |prompt| == |IdeasPromptHead| + |topic| + 1 + |IdeasPromptRest|
    ensures prompt[..|IdeasPromptHead|] == IdeasPromptHead
    ensures OccursAt(prompt, "\"" + topic + "\"", |IdeasPromptHead| - 1)
    ensures prompt[|prompt| - |IdeasPromptRest|..] == IdeasPromptRest
  {
    var prompt := IdeasPromptHead + topic + "\"" + IdeasPromptRest;
    assert prompt[|IdeasPromptHead| - 1..|IdeasPromptHead| + |topic| + 1] == "\"" + topic + "\"";
    prompt
  }

  /** What `handleGenerate` hands to `AIService.generateText`. */
  datatype IdeasCall = IdeasCall(prompt: string, config: AIConfig, options: TextOptions)

  /** The request for a topic: none for an empty topic; otherwise the prompt
      quoting the topic, with the strategist instruction and no other option. */
  function IdeasRequest(topic: string, config: AIConfig): (call: Option<IdeasCall>)
    ensures call.None? <==> topic == ""
    ensures call.Some? ==>
              && call.value.config == config
              && call.value.options == TextOptions(Some(StrategistInstruction), None, None)
              && OccursAt(call.value.prompt, "\"" + topic + "\"", |IdeasPromptHead| - 1)
  {
    if topic == "" then None
    else
      Some(IdeasCall(IdeasPrompt(topic), config, TextOptions(Some(StrategistInstruction), None, None)))
  }

  /** `l.trim().length > 5`: the test a line must pass to be kept. */
  predicate Keep(line: string)
    ensures Keep(line) ==> |line| > 5
  {
    |Trim(line)| > 5
  }

  /** `lines.filter(l => l.trim().length > 5)`. */
  function Filter(lines: seq<string>): (kept: seq<string>)
    ensures |kept| <= |lines|
    ensures forall i :: 0 <= i < |kept| ==> Keep(kept[i])
  {
    if lines == [] then []
    else if Keep(lines[0]) then [lines[0]] + Filter(lines[1..])
    else Filter(lines[1..])
  }

  /** Every kept line is taken untrimmed from the input and passes the test,
      and every input line that passes is kept, as often as it occurs. */
  lemma {:induction false} FilterCounts(lines: seq<string>)
    ensures forall l :: multiset(Filter(lines))[l] == if Keep(l) then multiset(lines)[l] else 0
    ensures forall l :: l in Filter(lines) <==> l in lines && Keep(l)
  {
    if lines != [] {
      FilterCounts(lines[1..]);
      assert lines == [lines[0]] + lines[1..];
    }
  }

  /** `a` is `b` with some elements left out, the rest in their order. */
  predicate IsSubsequence(a: seq<string>, b: seq<string>)
    decreases |b|
  {
    || a == []
    || (b != [] && ((a[0] == b[0] && IsSubsequence(a[1..], b[1..])) || IsSubsequence(a, b[1..])))
  }

  /** The kept lines keep their order (and their duplicates). */
  lemma {:induction false} FilterKeepsOrder(lines: seq<string>)
    ensures IsSubsequence(Filter(lines), lines)
  {
    if lines != [] {
      FilterKeepsOrder(lines[1..]);
      if Keep(lines[0]) {
        assert Filter(lines)[1..] == Filter(lines[1..]);
      }
    }
  }

  /** A list whose every line passes the test is left as it is. */
  lemma {:induction false} FilterKeepsAll(lines: seq<string>)
    requires forall i :: 0 <= i < |lines| ==> Keep(lines[i])
    ensures Filter(lines) == lines
  {
    if lines != [] {
      FilterKeepsAll(lines[1..]);
      assert [lines[0]] + lines[1..] == lines;
    }
  }

  /** `response.text.split('\n').filter(...)`: the ideas shown. */
  function IdeaLines(text: string): (ideas: seq<string>)
    ensures |ideas| <= |Split(text, '\n')|
    ensures forall i :: 0 <= i < |ideas| ==> Keep(ideas[i])
  {
    Filter(Split(text, '\n'))
  }

  /** No kept line holds a line break: each is one piece of the split. */
  lemma IdeaLinesUnbroken(text: string)
    ensures forall i :: 0 <= i < |IdeaLines(text)| ==> '\n' !in IdeaLines(text)[i]
  {
    var pieces := Split(text, '\n');
    var kept := Filter(pieces);
    FilterCounts(pieces);
    forall i | 0 <= i < |kept| ensures '\n' !in kept[i] {
      assert kept[i] in pieces;
    }
  }

  /** Filtering is idempotent: the shown ideas, joined by line breaks, give
      the same ideas again. */
  lemma IdeaLinesIdempotent(text: string)
    ensures IdeaLines(Join(IdeaLines(text), '\n')) == IdeaLines(text)
  {
    var kept := IdeaLines(text);
    if kept == [] {
      assert Split("", '\n') == [""];
      assert !Keep("");
    } else {
      IdeaLinesUnbroken(text);
      SplitJoin(kept, '\n');
      FilterKeepsAll(kept);
    }
  }

  /** An answer whose lines hold no line break is cut back into those
      lines, so the ideas shown are exactly its lines that pass the test. */
  lemma IdeaLinesOfLines(lines: seq<string>)
    requires |lines| >= 1
    requires forall i :: 0 <= i < |lines| ==> '\n' !in lines[i]
    ensures IdeaLines(Join(lines, '\n')) == Filter(lines)
  {
    SplitJoin(lines, '\n');
  }

  /** The test on lengths: a line of at most five characters is dropped
      whatever it holds; a longer one with no space at either end is kept. */
  lemma KeepByLength(line: string)
    ensures |line| <= 5 ==> !Keep(line)
    ensures |line| > 5 && Unpadded(line) ==> Keep(line)
  {
    if |line| > 5 && Unpadded(line) {
      var none: string := [];
      assert none + line + none == line;
      TrimOfFramed(none, line, none);
    }
  }

  /** The ideas after `handleGenerate`, given what `generateText` did: the
      kept lines on success; unchanged when it threw (the error is only
      logged) or when there was no request. */
  function IdeasAfter(topic: string, ideas: seq<string>, outcome: Completion<GenerationResult>): (r: seq<string>)
    ensures topic == "" || outcome.Throw? ==> r == ideas
    ensures topic != "" && outcome.Normal? ==> r == IdeaLines(outcome.value.text)
  {
    if topic == "" then ideas
    else match outcome
         case Throw(_) => ideas
         case Normal(result) => IdeaLines(result.text)
  }
}
