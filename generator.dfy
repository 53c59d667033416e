/** The blueprint generator (`components/Generator.tsx`): the request it sends
    for a concept, the extraction of the four labelled sections from the
    answer, and the markdown export of the result. */
module Generator {
  import opened JsValue
  import opened JsString
  import opened Types

  /** The text a section takes when its block is missing or blank. */
  const NotFound := "Information not found."

  const ArchitectInstruction :=
    "You are a world-class Product Manager and Technical Architect. Your documentation is precise, innovative, and thorough."

  /** What the prompt asks for after the quoted concept: the four sections
      and the `[X_START]`/`[X_END]` labels (continuation lines keep the eight
      spaces of indentation they have in the template literal). */
  const PromptInstructions :=
    "        You MUST return the content in a format I can parse into four sections: \n"
    + "        1. PRD (Problem, Goals, User Stories, Features)\n"
    + "        2. TECHNICAL SPECS (Tech stack, API endpoints, Data schema)\n"
    + "        3. DESIGN SYSTEM (Color palette, Typography, UI Components, UX Flow)\n"
    + "        4. DEV PLAN (Phase 1-4 timeline with tasks)\n"
    + "        \n"
    + "        Label each clearly like [PRD_START], [PRD_END], [SPECS_START] etc."

  const PromptHead := "Create a comprehensive suite of product documentation for this idea: \""

  // ------------------------------------------------------------ extraction

  /** `text.match(new RegExp(START + "([\\s\\S]*?)" + END))?.[1]?.trim() ||
      NotFound` for literal markers: the section made of the lazy group, if
      the pattern matches. */
  function Extract(text: string, start: string, end: string): (r: string)
    ensures r == NotFound || (r != "" && Unpadded(r))
  {
    match Span(text, start, end)
    case None => NotFound
    case Some((a, b)) => Section(text[a..b])
  }

  /** Where the lazy group lies, if the pattern matches: the leftmost match
      starts at the first `start`, and the group stops at the first `end`
      after it. */
  function Span(text: string, start: string, end: string): (r: Option<(nat, nat)>)
    ensures r.Some? ==> r.value.0 <= r.value.1 <= |text|
  {
    match IndexOf(text, start, 0)
    case None => None
    case Some(i) =>
      match IndexOf(text, end, i + |start|)
      case None => None
      case Some(j) => Some((i + |start|, j))
  }

  /** The section a group yields: its trim, or the placeholder when the trim
      is empty (the `||` fallback). */
  function Section(body: string): (r: string)
    ensures AllSpace(body) ==> r == NotFound
    ensures !AllSpace(body) ==> r == Trim(body) && r != ""
  {
    TrimEmptyIffAllSpace(body);
    var t := Trim(body);
    if t == "" then NotFound else t
  }

  /** The group runs from the end of the first `start` (at `i`) to the first
      `end` (at `j`) after it. */
  lemma SpanBetween(text: string, start: string, end: string, i: nat, j: nat)
    requires OccursAt(text, start, i) && forall k :: 0 <= k < i ==> !OccursAt(text, start, k)
    requires i + |start| <= j && OccursAt(text, end, j)
    requires forall k :: i + |start| <= k < j ==> !OccursAt(text, end, k)
    ensures Span(text, start, end) == Some((i + |start|, j))
  {
    IndexOfFirst(text, start, 0, i);
    IndexOfFirst(text, end, i + |start|, j);
  }

  /** When `start` occurs but no `end` follows its first occurrence, the
      pattern does not match and the section is the placeholder. */
  lemma ExtractUnterminated(text: string, start: string, end: string, i: nat)
    requires OccursAt(text, start, i) && forall k :: 0 <= k < i ==> !OccursAt(text, start, k)
    requires forall k :: i + |start| <= k ==> !OccursAt(text, end, k)
    ensures Span(text, start, end).None?
    ensures Extract(text, start, end) == NotFound
  {
    IndexOfFirst(text, start, 0, i);
  }

  /** Without a start marker, or without any end marker, the section is the
      placeholder. */
  lemma ExtractMissingMarker(text: string, start: string, end: string)
    requires Absent(text, start) || Absent(text, end)
    ensures Extract(text, start, end) == NotFound
  {
    match IndexOf(text, start, 0)
    case None =>
    case Some(i) =>
      assert !Absent(text, start);
  }

  /** Extraction is the section of the group. */
  lemma ExtractOfSpan(text: string, start: string, end: string, a: nat, b: nat, body: string)
    requires Span(text, start, end) == Some((a, b)) && a <= b <= |text| && text[a..b] == body
    ensures Extract(text, start, end) == Section(body)
  {
  }

  /** A section of a group holding no `end` holds no `end` either. */
  lemma SectionAvoids(body: string, end: string)
    requires Absent(body, end) && end != [] && end[0] !in NotFound
    ensures Absent(Section(body), end)
  {
    AbsentByFirstChar(NotFound, end);
    TrimAvoids(body, end);
  }

  /** An extracted section never holds its own end marker (whose first
      character the placeholder lacks). */
  lemma ExtractAvoidsEnd(text: string, start: string, end: string)
    requires end != [] && end[0] !in NotFound
    ensures Absent(Extract(text, start, end), end)
  {
    match Span(text, start, end)
    case None =>
      AbsentByFirstChar(NotFound, end);
    case Some((a, b)) =>
      AbsentInSlice(text, end, a, b);
      SectionAvoids(text[a..b], end);
      ExtractOfSpan(text, start, end, a, b, text[a..b]);
  }

  /** A block made of two unbordered markers around a body holding no end
      marker, after text holding no start marker, is the group. */
  lemma SpanOfBlock(x: string, S: string, body: string, E: string, rest: string)
    requires Unbordered(S) && Unbordered(E) && Absent(x, S) && Absent(body, E)
    ensures Span(x + S + body + E + rest, S, E) == Some((|x| + |S|, |x| + |S| + |body|))
  {
    StartFound(x, S, body + E + rest);
    assert x + S + (body + E + rest) == x + S + body + E + rest;
    FirstOccurrenceAfter(x + S, body, E, rest);
  }

  lemma StartFound(x: string, S: string, tail: string)
    requires Unbordered(S) && Absent(x, S)
    ensures IndexOf(x + S + tail, S, 0) == Some(|x|)
  {
    FirstOccurrenceAfter([], x, S, tail);
    assert [] + x + S + tail == x + S + tail;
  }

  lemma SliceOfBlock(x: string, S: string, body: string, E: string, rest: string)
    ensures (x + S + body + E + rest)[|x| + |S|..|x| + |S| + |body|] == body
  {
  }

  /** The section of such a block is the section of its body. */
  lemma ExtractOfBlock(x: string, S: string, body: string, E: string, rest: string)
    requires Unbordered(S) && Unbordered(E) && Absent(x, S) && Absent(body, E)
    ensures Extract(x + S + body + E + rest, S, E) == Section(body)
  {
    SpanOfBlock(x, S, body, E, rest);
    SliceOfBlock(x, S, body, E, rest);
    ExtractOfSpan(x + S + body + E + rest, S, E, |x| + |S|, |x| + |S| + |body|, body);
  }

  // -------------------------------------------------------- labelled blocks

  /** A section name the markers can carry: no `[`, so that a marker's only
      `[` is its first character. */
  predicate ValidName(n: string) {
    n != "" && '[' !in n
  }

  function StartMarker(n: string): string {
    "[" + (n + "_START]")
  }

  function EndMarker(n: string): string {
    "[" + (n + "_END]")
  }

  /** A section labelled as the prompt asks. */
  function Block(n: string, body: string): string {
    StartMarker(n) + body + EndMarker(n)
  }

  lemma BracketedUnbordered(w: string)
    requires '[' !in w
    ensures Unbordered("[" + w)
  {
    assert forall d :: 0 < d < |"[" + w| ==> ("[" + w)[d] == w[d - 1];
  }

  lemma MarkersUnbordered(n: string)
    requires ValidName(n)
    ensures Unbordered(StartMarker(n)) && Unbordered(EndMarker(n))
  {
    BracketedUnbordered(n + "_START]");
    BracketedUnbordered(n + "_END]");
  }

  lemma BlockAssoc(x: string, n: string, body: string, rest: string)
    ensures x + Block(n, body) + rest == x + StartMarker(n) + body + EndMarker(n) + rest
  {
  }

  /** Order independence: a section's own block decides it, whatever text
      (holding no start marker of that section) precedes it, and whatever
      follows it. */
  lemma ExtractFramed(x: string, n: string, body: string, rest: string)
    requires ValidName(n) && '[' !in body && Absent(x, StartMarker(n))
    ensures Extract(x + Block(n, body) + rest, StartMarker(n), EndMarker(n)) == Section(body)
  {
    MarkersUnbordered(n);
    AbsentByFirstChar(body, EndMarker(n));
    ExtractOfBlock(x, StartMarker(n), body, EndMarker(n), rest);
    BlockAssoc(x, n, body, rest);
  }

  /** The example of a well-labelled answer. */
  lemma BlueprintExample()
    ensures Extract("[PRD_START]Problem: X[PRD_END]", "[PRD_START]", "[PRD_END]") == "Problem: X"
  {
    var body := "Problem: X";
    ExampleText();
    SectionRecovered("[PRD_START]Problem: X[PRD_END]", [], PrdName, body, []);
  }

  lemma ExampleText()
    ensures [] + Block(PrdName, "Problem: X") + [] == "[PRD_START]Problem: X[PRD_END]"
    ensures StartMarker(PrdName) == "[PRD_START]" && EndMarker(PrdName) == "[PRD_END]"
    ensures ValidName(PrdName) && Recoverable("Problem: X") && Absent([], StartMarker(PrdName))
  {
  }

  /** `"[" + w` with no other `[` holds no marker `m` that differs from it at
      index `j`. */
  lemma ChunkAbsent(w: string, m: string, j: nat)
    requires '[' !in w && m != [] && m[0] == '['
    requires 1 <= j <= |w| && j < |m| && w[j - 1] != m[j]
    ensures Absent("[" + w, m)
  {
    var c := "[" + w;
    assert forall k :: 0 < k < |c| ==> c[k] == w[k - 1];
    forall k | OccursAt(c, m, k) ensures k == 0 {
      OccursAtChar(c, m, k, 0);
    }
    if OccursAt(c, m, 0) {
      OccursAtChar(c, m, 0, j);
    }
  }

  /** Blocks of other sections, with `[`-free text around them, hold no marker
      `m` (one that differs from `n`'s markers at index `j`). */
  lemma GapBlockAbsent(g: string, n: string, body: string, g': string, rest: string, m: string, j: nat)
    requires m != [] && m[0] == '[' && Unbordered(m)
    requires '[' !in g && '[' !in body && '[' !in g' && ValidName(n)
    requires 1 <= j <= |n| && j < |m| && n[j - 1] != m[j]
    requires Absent(rest, m) && (rest == [] || rest[0] == '[')
    ensures Absent(g + Block(n, body) + g' + rest, m)
  {
    var c1 := StartMarker(n) + body;
    var c2 := EndMarker(n) + g';
    assert c1 == "[" + (n + "_START]" + body);
    assert c2 == "[" + (n + "_END]" + g');
    ChunkAbsent(n + "_START]" + body, m, j);
    ChunkAbsent(n + "_END]" + g', m, j);
    AbsentConcat(c2, rest, m);
    AbsentConcat(c1, c2 + rest, m);
    AbsentByFirstChar(g, m);
    AbsentConcat(g, c1 + (c2 + rest), m);
    assert g + (c1 + (c2 + rest)) == g + Block(n, body) + g' + rest;
  }

  // ------------------------------------------------------------ the four docs

  const PrdName := "PRD"
  const SpecsName := "SPECS"
  const DesignName := "DESIGN"
  const PlansName := "PLANS"

  /** What a section can come back as: the placeholder, or a non-empty text
      with no space at either end; never holding its own end marker. */
  ghost predicate SectionText(s: string, n: string) {
    (s == NotFound || (s != "" && Unpadded(s))) && Absent(s, EndMarker(n))
  }

  /** The four sections the answer is parsed into, each extracted on its own
      from the same text. */
  function ExtractDocs(text: string): (docs: ProductDocs)
    ensures SectionText(docs.prd, PrdName) && SectionText(docs.specs, SpecsName)
    ensures SectionText(docs.design, DesignName) && SectionText(docs.plans, PlansName)
  {
    assert '[' !in NotFound;
    ExtractAvoidsEnd(text, StartMarker(PrdName), EndMarker(PrdName));
    ExtractAvoidsEnd(text, StartMarker(SpecsName), EndMarker(SpecsName));
    ExtractAvoidsEnd(text, StartMarker(DesignName), EndMarker(DesignName));
    ExtractAvoidsEnd(text, StartMarker(PlansName), EndMarker(PlansName));
    ProductDocs(
      Extract(text, StartMarker(PrdName), EndMarker(PrdName)),
      Extract(text, StartMarker(SpecsName), EndMarker(SpecsName)),
      Extract(text, StartMarker(DesignName), EndMarker(DesignName)),
      Extract(text, StartMarker(PlansName), EndMarker(PlansName)))
  }

  /** An answer laid out as the prompt asks: the four blocks in order, with
      free text (holding no `[`) around them. */
  function LabelledAnswer(g0: string, g1: string, g2: string, g3: string, g4: string, docs: ProductDocs): string {
    g0 + Block(PrdName, docs.prd) + g1 + Block(SpecsName, docs.specs) + g2
    + Block(DesignName, docs.design) + g3 + Block(PlansName, docs.plans) + g4
  }

  /** Text a section can hold and come back unchanged. */
  predicate Recoverable(s: string) {
    s != "" && Unpadded(s) && '[' !in s
  }

  /** A recoverable section comes back from its block. */
  lemma SectionRecovered(text: string, x: string, n: string, body: string, rest: string)
    requires text == x + Block(n, body) + rest
    requires ValidName(n) && Recoverable(body) && Absent(x, StartMarker(n))
    ensures Extract(text, StartMarker(n), EndMarker(n)) == body
  {
    ExtractFramed(x, n, body, rest);
    SectionOfRecoverable(body);
  }

  lemma PrdRecovered(g0: string, g1: string, g2: string, g3: string, g4: string, docs: ProductDocs)
    requires '[' !in g0 && Recoverable(docs.prd)
    ensures ExtractDocs(LabelledAnswer(g0, g1, g2, g3, g4, docs)).prd == docs.prd
  {
    var rest := g1 + Block(SpecsName, docs.specs) + g2 + Block(DesignName, docs.design) + g3 + Block(PlansName, docs.plans) + g4;
    assert LabelledAnswer(g0, g1, g2, g3, g4, docs) == g0 + Block(PrdName, docs.prd) + rest;
    AbsentByFirstChar(g0, StartMarker(PrdName));
    SectionRecovered(LabelledAnswer(g0, g1, g2, g3, g4, docs), g0, PrdName, docs.prd, rest);
  }

  lemma SpecsRecovered(g0: string, g1: string, g2: string, g3: string, g4: string, docs: ProductDocs)
    requires '[' !in g0 && '[' !in g1 && Recoverable(docs.prd) && Recoverable(docs.specs)
    ensures ExtractDocs(LabelledAnswer(g0, g1, g2, g3, g4, docs)).specs == docs.specs
  {
    var x := g0 + Block(PrdName, docs.prd) + g1;
    var rest := g2 + Block(DesignName, docs.design) + g3 + Block(PlansName, docs.plans) + g4;
    assert LabelledAnswer(g0, g1, g2, g3, g4, docs) == x + Block(SpecsName, docs.specs) + rest;
    MarkersUnbordered(SpecsName);
    GapBlockAbsent(g0, PrdName, docs.prd, g1, [], StartMarker(SpecsName), 1);
    assert x + [] == x;
    SectionRecovered(LabelledAnswer(g0, g1, g2, g3, g4, docs), x, SpecsName, docs.specs, rest);
  }

  lemma DesignRecovered(g0: string, g1: string, g2: string, g3: string, g4: string, docs: ProductDocs)
    requires '[' !in g0 && '[' !in g1 && '[' !in g2
    requires Recoverable(docs.prd) && Recoverable(docs.specs) && Recoverable(docs.design)
    ensures ExtractDocs(LabelledAnswer(g0, g1, g2, g3, g4, docs)).design == docs.design
  {
    var m := StartMarker(DesignName);
    var y := Block(SpecsName, docs.specs) + g2;
    var x := g0 + Block(PrdName, docs.prd) + g1 + y;
    var rest := g3 + Block(PlansName, docs.plans) + g4;
    assert LabelledAnswer(g0, g1, g2, g3, g4, docs) == x + Block(DesignName, docs.design) + rest;
    MarkersUnbordered(DesignName);
    GapBlockAbsent([], SpecsName, docs.specs, g2, [], m, 1);
    assert [] + Block(SpecsName, docs.specs) + g2 + [] == y;
    GapBlockAbsent(g0, PrdName, docs.prd, g1, y, m, 1);
    SectionRecovered(LabelledAnswer(g0, g1, g2, g3, g4, docs), x, DesignName, docs.design, rest);
  }

  lemma PlansRecovered(g0: string, g1: string, g2: string, g3: string, g4: string, docs: ProductDocs)
    requires '[' !in g0 && '[' !in g1 && '[' !in g2 && '[' !in g3
    requires Recoverable(docs.prd) && Recoverable(docs.specs)
    requires Recoverable(docs.design) && Recoverable(docs.plans)
    ensures ExtractDocs(LabelledAnswer(g0, g1, g2, g3, g4, docs)).plans == docs.plans
  {
    var x := PlansPrefix(g0, g1, g2, g3, docs);
    assert LabelledAnswer(g0, g1, g2, g3, g4, docs) == x + Block(PlansName, docs.plans) + g4;
    PlansPrefixAbsent(g0, g1, g2, g3, docs);
    MarkersUnbordered(PlansName);
    SectionRecovered(LabelledAnswer(g0, g1, g2, g3, g4, docs), x, PlansName, docs.plans, g4);
  }

  function PlansPrefix(g0: string, g1: string, g2: string, g3: string, docs: ProductDocs): string {
    g0 + Block(PrdName, docs.prd) + g1 + (Block(SpecsName, docs.specs) + g2 + (Block(DesignName, docs.design) + g3))
  }

  lemma PlansPrefixAbsent(g0: string, g1: string, g2: string, g3: string, docs: ProductDocs)
    requires '[' !in g0 && '[' !in g1 && '[' !in g2 && '[' !in g3
    requires '[' !in docs.prd && '[' !in docs.specs && '[' !in docs.design
    ensures Absent(PlansPrefix(g0, g1, g2, g3, docs), StartMarker(PlansName))
  {
    var m := StartMarker(PlansName);
    var z := Block(DesignName, docs.design) + g3;
    var y := Block(SpecsName, docs.specs) + g2 + z;
    MarkersUnbordered(PlansName);
    GapBlockAbsent([], DesignName, docs.design, g3, [], m, 1);
    assert [] + Block(DesignName, docs.design) + g3 + [] == z;
    GapBlockAbsent([], SpecsName, docs.specs, g2, z, m, 1);
    assert [] + Block(SpecsName, docs.specs) + g2 + z == y;
    GapBlockAbsent(g0, PrdName, docs.prd, g1, y, m, 2);
  }

  /** Extraction recovers every section of a labelled answer. */
  lemma ExtractDocsRoundTrip(g0: string, g1: string, g2: string, g3: string, g4: string, docs: ProductDocs)
    requires '[' !in g0 && '[' !in g1 && '[' !in g2 && '[' !in g3
    requires Recoverable(docs.prd) && Recoverable(docs.specs)
    requires Recoverable(docs.design) && Recoverable(docs.plans)
    ensures ExtractDocs(LabelledAnswer(g0, g1, g2, g3, g4, docs)) == docs
  {
    PrdRecovered(g0, g1, g2, g3, g4, docs);
    SpecsRecovered(g0, g1, g2, g3, g4, docs);
    DesignRecovered(g0, g1, g2, g3, g4, docs);
    PlansRecovered(g0, g1, g2, g3, g4, docs);
  }

  lemma SectionOfRecoverable(s: string)
    requires Recoverable(s)
    ensures Section(s) == s
  {
    TrimOfFramed([], s, []);
    assert [] + s + [] == s;
  }

  // ------------------------------------------------------------ generation

  /** The prompt: the fixed head, the concept in quotes, then the
      instructions naming the four sections and their labels. */
  function BlueprintPrompt(concept: string): (prompt: string)
    ensures |prompt| == |PromptHead| + |concept| + 3 + |PromptInstructions|
    ensures prompt[..|PromptHead|] == PromptHead
    ensures OccursAt(prompt, "\"" + concept + "\"", |PromptHead| - 1)
    ensures prompt[|prompt| - |PromptInstructions|..] == PromptInstructions
  {
    var prompt := PromptHead + concept + "\".\n" + PromptInstructions;
    assert prompt[|PromptHead| - 1..|PromptHead| + |concept| + 1] == "\"" + concept + "\"";
    prompt
  }

  /** What `generateDocs` hands to `AIService.generateText`. */
  datatype BlueprintCall = BlueprintCall(prompt: string, config: AIConfig, options: TextOptions)

  /** The request for a concept: none for an empty concept; otherwise the
      prompt quoting the concept, the architect instruction, and thinking
      exactly on Gemini. */
  function BlueprintRequest(concept: string, config: AIConfig): (call: Option<BlueprintCall>)
    ensures call.None? <==> concept == ""
    ensures call.Some? ==>
              && call.value.config == config
              && call.value.options.useThinking == Some(config.provider == Gemini)
              && call.value.options.systemInstruction == Some(ArchitectInstruction)
              && call.value.options.useSearch.None?
              && OccursAt(call.value.prompt, "\"" + concept + "\"", |PromptHead| - 1)
  {
    if concept == "" then None
    else
      Some(BlueprintCall(BlueprintPrompt(concept), config, TextOptions(Some(ArchitectInstruction), None, Some(config.provider == Gemini))))
  }

  /** The docs after `generateDocs`, given what `generateText` did: the
      extracted sections on success; unchanged when it threw (the error is
      only logged) or when there was no request. */
  function DocsAfter(concept: string, docs: Option<ProductDocs>, outcome: Completion<GenerationResult>): (r: Option<ProductDocs>)
    ensures concept == "" || outcome.Throw? ==> r == docs
    ensures concept != "" && outcome.Normal? ==> r == Some(ExtractDocs(outcome.value.text))
  {
    if concept == "" then docs
    else match outcome
         case Throw(_) => docs
         case Normal(result) => Some(ExtractDocs(result.text))
  }

  // ---------------------------------------------------------------- export

  /** `s.replace(/\s/g, '_')`. */
  function Underscored(s: string): (r: string)
    ensures |r| == |s|
    ensures forall i :: 0 <= i < |s| ==> r[i] == (if IsSpace(s[i]) then '_' else s[i])
  {
    if s == [] then "" else [if IsSpace(s[0]) then '_' else s[0]] + Underscored(s[1..])
  }

  const FileNamePrefix := "Project_Genesis_"
  const FileNameSuffix := ".md"

  /** The download name: the first ten characters of the concept, with
      whitespace turned into underscores, between a fixed prefix and `.md`. */
  function ExportFileName(concept: string): (name: string)
    ensures |name| == 19 + (if |concept| < 10 then |concept| else 10) <= 29
    ensures forall i :: 0 <= i < |name| ==> !IsSpace(name[i])
    ensures name[..16] == FileNamePrefix && name[|name| - 3..] == FileNameSuffix
    ensures forall i :: 0 <= i < |name| - 19 ==>
              name[16 + i] == (if IsSpace(concept[i]) then '_' else concept[i])
  {
    var middle := Underscored(SliceTo(concept, 10));
    var name := FileNamePrefix + middle + FileNameSuffix;
    assert forall i :: 0 <= i < |middle| ==> name[16 + i] == middle[i];
    assert forall i :: 0 <= i < 16 ==> name[i] == FileNamePrefix[i];
    assert forall i :: 0 <= i < 3 ==> name[16 + |middle| + i] == FileNameSuffix[i];
    name
  }

  /** The concatenation of a list of pieces. */
  function Concat(ps: seq<string>): string {
    if ps == [] then "" else ps[0] + Concat(ps[1..])
  }

  /** Each piece lies in the concatenation right after the pieces before it. */
  lemma {:induction false} ConcatOccurs(ps: seq<string>, k: nat)
    requires k < |ps|
    ensures OccursAt(Concat(ps), ps[k], |Concat(ps[..k])|)
  {
    if k == 0 {
      assert ps[..0] == [];
      assert Concat(ps)[..|ps[0]|] == ps[0];
    } else {
      ConcatOccurs(ps[1..], k - 1);
      assert ps[1..][k - 1] == ps[k];
      assert ps[..k][1..] == ps[1..][..k - 1];
      var a, t := ps[0], Concat(ps[1..]);
      var i := |Concat(ps[1..][..k - 1])|;
      assert (a + t)[|a| + i..|a| + i + |ps[k]|] == t[i..i + |ps[k]|];
    }
  }

  /** The pieces before `k + 1` are those before `k` and piece `k`. */
  lemma {:induction false} ConcatPrefixLength(ps: seq<string>, k: nat)
    requires k < |ps|
    ensures |Concat(ps[..k + 1])| == |Concat(ps[..k])| + |ps[k]|
  {
    if k > 0 {
      ConcatPrefixLength(ps[1..], k - 1);
      assert ps[..k + 1][1..] == ps[1..][..k];
      assert ps[..k][1..] == ps[1..][..k - 1];
    } else {
      assert ps[..1][1..] == [];
    }
  }

  /** The template literal's pieces: the concept heading, then each section
      after its heading, then the closing indentation. */
  function ExportPieces(concept: string, docs: ProductDocs): (ps: seq<string>)
    ensures |ps| == 11
    ensures ps[1] == concept && ps[3] == docs.prd && ps[5] == docs.specs
    ensures ps[7] == docs.design && ps[9] == docs.plans
  {
    ["\n# PROJECT CONCEPT: ", concept,
     "\n---\n## PRD\n", docs.prd,
     "\n---\n## TECHNICAL SPECS\n", docs.specs,
     "\n---\n## DESIGN SYSTEM\n", docs.design,
     "\n---\n## DEVELOPMENT PLAN\n", docs.plans,
     "\n    "]
  }

  /** Concatenation peels off one piece at a time. */
  lemma ConcatStep(ps: seq<string>, k: nat)
    requires k < |ps|
    ensures Concat(ps[k..]) == ps[k] + Concat(ps[k + 1..])
  {
    assert ps[k..][1..] == ps[k + 1..];
  }

  /** The markdown document: the template literal of `handleExport` with the
      concept and the four sections filled in. */
  function ExportContent(concept: string, docs: ProductDocs): (c: string)
    ensures c == "\n# PROJECT CONCEPT: " + (concept
               + ("\n---\n## PRD\n" + (docs.prd
               + ("\n---\n## TECHNICAL SPECS\n" + (docs.specs
               + ("\n---\n## DESIGN SYSTEM\n" + (docs.design
               + ("\n---\n## DEVELOPMENT PLAN\n" + (docs.plans
               + "\n    ")))))))))
  {
    var ps := ExportPieces(concept, docs);
    var none: string := [];
    assert ps[11..] == [];
    ConcatStep(ps, 10);
    assert Concat(ps[10..]) == ps[10] + none;
    ConcatStep(ps, 9); ConcatStep(ps, 8); ConcatStep(ps, 7);
    ConcatStep(ps, 6); ConcatStep(ps, 5); ConcatStep(ps, 4); ConcatStep(ps, 3);
    ConcatStep(ps, 2); ConcatStep(ps, 1); ConcatStep(ps, 0);
    assert ps[0..] == ps;
    Concat(ps)
  }

  /** The file `handleExport` offers for download. */
  datatype ExportFile = ExportFile(fileName: string, content: string)

  /** `handleExport`: nothing without docs; otherwise the named document. */
  function HandleExport(concept: string, docs: Option<ProductDocs>): (r: Option<ExportFile>)
    ensures r.None? <==> docs.None?
    ensures r.Some? ==> r.value.fileName == ExportFileName(concept) && r.value.content == ExportContent(concept, docs.value)
  {
    match docs
    case None => None
    case Some(d) => Some(ExportFile(ExportFileName(concept), ExportContent(concept, d)))
  }

  /** The export holds the concept and then the four sections, each right
      after its own heading, in the order PRD, specs, design, plan: piece `k`
      starts at `Offset(k)`, where piece `k - 1` ends. */
  lemma ExportSectionsInOrder(concept: string, docs: ProductDocs)
    ensures var ps := ExportPieces(concept, docs);
            var c := ExportContent(concept, docs);
            && (forall k :: 0 <= k < |ps| ==> OccursAt(c, ps[k], |Concat(ps[..k])|))
            && (forall k :: 0 <= k < |ps| ==> |Concat(ps[..k + 1])| == |Concat(ps[..k])| + |ps[k]|)
  {
    var ps := ExportPieces(concept, docs);
    forall k | 0 <= k < |ps| ensures OccursAt(Concat(ps), ps[k], |Concat(ps[..k])|) {
      ConcatOccurs(ps, k);
    }
    forall k | 0 <= k < |ps| ensures |Concat(ps[..k + 1])| == |Concat(ps[..k])| + |ps[k]| {
      ConcatPrefixLength(ps, k);
    }
  }
}
