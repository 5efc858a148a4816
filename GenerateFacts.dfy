/** What one generation step of backend.py does to a world, stated over
    the step function `Generate`. */
module GenerateFacts {
  import opened Strings
  import opened Tags
  import opened Prompt
  import opened Backend

  /** The model's raw response in a step that resolved its segment. */
  function Response(w: World, ref: SegmentRef, promptBase: string, topic: string,
                    language: string, quote: string -> string,
                    provider: string -> string): string
    requires Open(w, ref).Ok?
  {
    provider(RoundPrompt(promptBase, topic, language, quote, Open(w, ref).value))
  }

  // ---------------------------------------------------------------------
  // Which segment a step writes

  /** A step fails exactly when it is given an index outside the
      backstory, and then it raises for that index. */
  lemma GenerateFailsIff(w: World, ref: SegmentRef, promptBase: string, topic: string,
                         language: string, quote: string -> string,
                         provider: string -> string)
    ensures Generate(w, ref, promptBase, topic, language, quote, provider).Err?
        <==> ref.At? && !(0 <= |w.backstory| + ref.index && ref.index < |w.backstory|)
    ensures Generate(w, ref, promptBase, topic, language, quote, provider).Err?
        ==> Generate(w, ref, promptBase, topic, language, quote, provider).error
            == IndexOutOfRange(ref.index)
  {
    if ref.At? {
      var _ := PyIndex(|w.backstory|, ref.index);
    }
  }

  /** A step that resolves its segment appends the completion to it and
      answers with the completion's text. */
  lemma GenerateOk(w: World, ref: SegmentRef, promptBase: string, topic: string,
                   language: string, quote: string -> string,
                   provider: string -> string)
    requires Open(w, ref).Ok?
    ensures var c := "\n" + Response(w, ref, promptBase, topic, language, quote, provider);
            Generate(w, ref, promptBase, topic, language, quote, provider)
            == Ok((Appended(Open(w, ref).value, c), Answer(c)))
  {
  }

  lemma AppendedNew(description: string, backstory: seq<string>, completion: string)
    ensures Appended(Slot(World(description, backstory + [""]), |backstory|), completion).backstory
         == backstory + [completion]
  {
    var b := backstory + [""];
    assert "" + completion == completion;
    assert b[|backstory| := "" + completion] == backstory + [completion];
  }

  /** `"new"` adds one segment at the end holding just the completion; the
      segments before it are untouched. */
  lemma GenerateNewSegment(w: World, promptBase: string, topic: string,
                           language: string, quote: string -> string,
                           provider: string -> string)
    ensures Generate(w, New, promptBase, topic, language, quote, provider).Ok?
    ensures Generate(w, New, promptBase, topic, language, quote, provider).value.0.backstory
         == w.backstory + ["\n" + Response(w, New, promptBase, topic, language, quote, provider)]
  {
    GenerateOk(w, New, promptBase, topic, language, quote, provider);
    var c := "\n" + Response(w, New, promptBase, topic, language, quote, provider);
    AppendedNew(w.description, w.backstory, c);
  }

  lemma AppendedAt(w: World, t: nat, completion: string)
    requires t < |w.backstory|
    ensures var after := Appended(Slot(w, t), completion).backstory;
            after[t] == w.backstory[t] + completion
            && (forall j :: 0 <= j < |w.backstory| && j != t ==> after[j] == w.backstory[j])
  {
  }

  /** With an index in range, the completion is appended to the segment it
      selects (counting from the end when negative) and every other
      segment is kept. */
  lemma GenerateAppends(w: World, i: int, promptBase: string, topic: string,
                        language: string, quote: string -> string,
                        provider: string -> string)
    requires 0 <= |w.backstory| + i && i < |w.backstory|
    ensures var r := Generate(w, At(i), promptBase, topic, language, quote, provider);
            var t := if i < 0 then |w.backstory| + i else i;
            var resp := Response(w, At(i), promptBase, topic, language, quote, provider);
            r.Ok?
            && |r.value.0.backstory| == |w.backstory|
            && r.value.0.backstory[t] == w.backstory[t] + "\n" + resp
            && (forall j :: 0 <= j < |w.backstory| && j != t ==>
                  r.value.0.backstory[j] == w.backstory[j])
  {
    var t := if i < 0 then |w.backstory| + i else i;
    assert PyIndex(|w.backstory|, i) == Ok(t);
    assert Open(w, At(i)) == Ok(Slot(w, t));
    var resp := Response(w, At(i), promptBase, topic, language, quote, provider);
    GenerateOk(w, At(i), promptBase, topic, language, quote, provider);
    AppendedAt(w, t, "\n" + resp);
    assert w.backstory[t] + ("\n" + resp) == w.backstory[t] + "\n" + resp;
  }

  // ---------------------------------------------------------------------
  // What the step returns

  /** The returned text is the narrative of the bare response, and the
      flag says whether the response ends with `<end>`. */
  lemma GenerateReply(w: World, ref: SegmentRef, promptBase: string, topic: string,
                      language: string, quote: string -> string,
                      provider: string -> string)
    requires Open(w, ref).Ok?
    ensures var r := Generate(w, ref, promptBase, topic, language, quote, provider);
            var resp := Response(w, ref, promptBase, topic, language, quote, provider);
            r.Ok?
            && r.value.1.text == Text(resp)
            && (r.value.1.ended <==> EndsWith(resp, EndMarker))
  {
    var resp := Response(w, ref, promptBase, topic, language, quote, provider);
    GenerateOk(w, ref, promptBase, topic, language, quote, provider);
    AnswerIgnoresNewline(resp);
  }

  /** The reply to a completion is the reply to the bare response. */
  lemma AnswerIgnoresNewline(resp: string)
    ensures Answer("\n" + resp) == Reply(Text(resp), EndsWith(resp, EndMarker))
  {
    var completion := "\n" + resp;
    var a := Answer(completion);
    assert a.text == Text(resp) by {
      TextIgnoresLeadingNewline(resp);
    }
    assert a.ended == EndsWith(resp, EndMarker) by {
      EndedIgnoresNewline(resp);
    }
  }

  lemma EndedIgnoresNewline(resp: string)
    ensures EndsWith("\n" + resp, EndMarker) == EndsWith(resp, EndMarker)
  {
    var marker := EndMarker;
    assert '\n' !in marker by {
      assert marker == ['<', 'e', 'n', 'd', '>'];
    }
    EndsWithAfterNewline(resp, marker);
  }

  /** A completion whose last character is a newline is never marked
      finished, even when `<end>` stands just before that newline. */
  lemma TrailingNewlineNotEnded(completion: string)
    requires |completion| > 0 && completion[|completion| - 1] == '\n'
    ensures !Answer(completion).ended
  {
    var marker := EndMarker;
    assert marker[|marker| - 1] == '>';
  }

  // ---------------------------------------------------------------------
  // What the model is shown

  /** A compacted segment is never longer than the segment itself. */
  lemma CompactNoLonger(backstory: seq<string>, target: nat, j: nat)
    requires target < |backstory| && j < |backstory|
    ensures |Compact(backstory, target)[j]| <= |backstory[j]|
  {
    if j != target {
      InfoNoLonger(backstory[j]);
    }
  }

  /** Two backstories of one length compact alike exactly when their
      summaries agree outside the target: the raw story text, and the
      target segment as a whole, are invisible in the `World:` block. */
  lemma CompactSameIff(b1: seq<string>, b2: seq<string>, target: nat)
    requires |b1| == |b2| && target < |b1|
    ensures Compact(b1, target) == Compact(b2, target)
        <==> forall j :: 0 <= j < |b1| && j != target ==> Info(b1[j]) == Info(b2[j])
  {
    if forall j :: 0 <= j < |b1| && j != target ==> Info(b1[j]) == Info(b2[j]) {
      var c1 := Compact(b1, target);
      var c2 := Compact(b2, target);
      forall j | 0 <= j < |b1|
        ensures c1[j] == c2[j]
      {
      }
    } else {
      var j :| 0 <= j < |b1| && j != target && Info(b1[j]) != Info(b2[j]);
      assert Compact(b1, target)[j] != Compact(b2, target)[j];
    }
  }

  /** The prompt of a step depends on the other segments only through
      their `<info>` summaries. */
  lemma PromptSeesSummariesOnly(promptBase: string, topic: string, language: string,
                                quote: string -> string, s1: Slot, s2: Slot)
    requires s1.target == s2.target && s1.target < |s1.world.backstory|
    requires s1.world.description == s2.world.description
    requires |s1.world.backstory| == |s2.world.backstory|
    requires s1.world.backstory[s1.target] == s2.world.backstory[s2.target]
    requires forall j :: 0 <= j < |s1.world.backstory| && j != s1.target ==>
               Info(s1.world.backstory[j]) == Info(s2.world.backstory[j])
    ensures RoundPrompt(promptBase, topic, language, quote, s1)
         == RoundPrompt(promptBase, topic, language, quote, s2)
  {
    CompactSameIff(s1.world.backstory, s2.world.backstory, s1.target);
  }

  /** The prompt ends with the target segment, or with `<empty>` while
      that segment is still empty. */
  lemma PromptEndsWithCurrent(promptBase: string, topic: string, language: string,
                              quote: string -> string, slot: Slot)
    requires slot.target < |slot.world.backstory|
    ensures var p := RoundPrompt(promptBase, topic, language, quote, slot);
            var seg := slot.world.backstory[slot.target];
            StartsWith(p, promptBase)
            && (seg != "" ==> EndsWith(p, seg))
            && (seg == "" ==> EndsWith(p, Placeholder))
  {
  }

  /** With a `json.dumps` that escapes newlines, the prompt's lines are
      those of the template, topic and language, then one `World:` line,
      `Current Content:`, and the lines of the shown segment.  Topic and
      language may hold newlines of their own. */
  lemma PromptLayout(promptBase: string, topic: string, language: string,
                     quote: string -> string, slot: Slot)
    requires slot.target < |slot.world.backstory|
    requires forall s :: '\n' !in quote(s)
    ensures var b := slot.world.backstory;
            var block := WorldBlock(quote, slot.world.description, Compact(b, slot.target));
            Split(RoundPrompt(promptBase, topic, language, quote, slot))
            == Split(promptBase + "Topic: " + topic + "\n" + "Language: " + language)
               + ["World: " + block, "Current Content:"]
               + Split(Current(b[slot.target]))
  {
    var b := slot.world.backstory;
    var block := WorldBlock(quote, slot.world.description, Compact(b, slot.target));
    WorldBlockOneLine(quote, slot.world.description, Compact(b, slot.target));
    PromptWorldLine(promptBase, topic, language, block, Current(b[slot.target]));
  }

  // ---------------------------------------------------------------------
  // Several steps

  /** A sequence that differs from another only in its last element. */
  lemma ReplacedLast(before: seq<string>, after: seq<string>, x: string)
    requires |before| > 0 && |after| == |before|
    requires after[|before| - 1] == x
    requires forall j :: 0 <= j < |before| - 1 ==> after[j] == before[j]
    ensures after == before[..|before| - 1] + [x]
  {
  }

  /** Index -1 continues the last segment. */
  lemma LastGrowsSegment(w: World, promptBase: string, topic: string,
                         language: string, quote: string -> string,
                         provider: string -> string)
    requires |w.backstory| > 0
    ensures Generate(w, At(-1), promptBase, topic, language, quote, provider).Ok?
    ensures Generate(w, At(-1), promptBase, topic, language, quote, provider).value.0.backstory
         == w.backstory[..|w.backstory| - 1]
            + [w.backstory[|w.backstory| - 1] + "\n"
               + Response(w, At(-1), promptBase, topic, language, quote, provider)]
  {
    var n := |w.backstory|;
    var resp := Response(w, At(-1), promptBase, topic, language, quote, provider);
    GenerateAppends(w, -1, promptBase, topic, language, quote, provider);
    var after := Generate(w, At(-1), promptBase, topic, language, quote, provider).value.0.backstory;
    ReplacedLast(w.backstory, after, w.backstory[n - 1] + "\n" + resp);
  }

  /** Starting a segment with `"new"` and continuing it with index -1
      grows one segment: the two completions, each after a newline. */
  lemma NewThenContinue(w: World, promptBase: string, topic: string,
                        language: string, quote: string -> string,
                        provider: string -> string)
    ensures var r1 := Generate(w, New, promptBase, topic, language, quote, provider);
            r1.Ok?
            && var w1 := r1.value.0;
               var r2 := Generate(w1, At(-1), promptBase, topic, language, quote, provider);
               r2.Ok?
               && r2.value.0.backstory
                  == w.backstory
                     + ["\n" + Response(w, New, promptBase, topic, language, quote, provider)
                        + "\n" + Response(w1, At(-1), promptBase, topic, language, quote, provider)]
  {
    GenerateNewSegment(w, promptBase, topic, language, quote, provider);
    var w1 := Generate(w, New, promptBase, topic, language, quote, provider).value.0;
    var seg1 := "\n" + Response(w, New, promptBase, topic, language, quote, provider);
    var n := |w1.backstory|;
    assert w1.backstory[..n - 1] == w.backstory && w1.backstory[n - 1] == seg1;
    LastGrowsSegment(w1, promptBase, topic, language, quote, provider);
  }

  /** A cleared world accepts no index, and `"new"` starts it over with a
      single segment. */
  lemma AfterClear(description: string, i: int, promptBase: string, topic: string,
                   language: string, quote: string -> string,
                   provider: string -> string)
    ensures Generate(World(description, []), At(i), promptBase, topic, language, quote, provider)
            == Err(IndexOutOfRange(i))
    ensures Generate(World(description, []), New, promptBase, topic, language, quote, provider).Ok?
    ensures Generate(World(description, []), New, promptBase, topic, language, quote, provider)
              .value.0.backstory
            == ["\n" + Response(World(description, []), New, promptBase, topic, language, quote, provider)]
  {
    GenerateFailsIff(World(description, []), At(i), promptBase, topic, language, quote, provider);
    GenerateNewSegment(World(description, []), promptBase, topic, language, quote, provider);
  }
}
