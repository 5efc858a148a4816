/** Prompt assembly of backend.py: `get_full_prompt` and the `World:`
    block built from the compacted world. */
module Prompt {
  import opened Strings

  /** backend.py `get_full_prompt`: the instructional template, then the
      labelled `Topic:`, `Language:`, `World:` and `Current Content:`
      blocks. */
  function FullPrompt(promptBase: string, topic: string, language: string,
                      world: string, currentContent: string): (prompt: string)
    ensures StartsWith(prompt, promptBase)
    ensures EndsWith(prompt, currentContent)
  {
    var head := promptBase + "Topic: " + topic + "\n" + "Language: " + language
      + "\n" + "World: " + world + "\n" + "Current Content:" + "\n";
    assert (head + currentContent)[..|promptBase|] == promptBase;
    head + currentContent
  }

  /** The prompt regrouped as its template-and-topic line, then one
      newline-separated block after another. */
  lemma PromptShape(promptBase: string, topic: string, language: string,
                    world: string, currentContent: string)
    ensures FullPrompt(promptBase, topic, language, world, currentContent)
         == (promptBase + "Topic: " + topic) + "\n" + (("Language: " + language) + "\n"
            + (("World: " + world) + "\n" + ("Current Content:" + "\n" + currentContent)))
  {
  }

  lemma NoNewlineIn(heading: string, value: string)
    requires '\n' !in heading && '\n' !in value
    ensures '\n' !in heading + value
  {
  }

  lemma PromptLines(promptBase: string, topic: string, language: string,
                    world: string, currentContent: string)
    requires '\n' !in topic && '\n' !in language && '\n' !in world
    ensures Split(FullPrompt(promptBase, topic, language, world, currentContent))
         == Split(promptBase + "Topic: " + topic)
            + ["Language: " + language, "World: " + world, "Current Content:"]
            + Split(currentContent)
  {
    var a := promptBase + "Topic: " + topic;
    var l := "Language: " + language;
    var w := "World: " + world;
    var h := "Current Content:";
    PromptShape(promptBase, topic, language, world, currentContent);
    NoNewlineIn("Language: ", language);
    NoNewlineIn("World: ", world);
    assert '\n' !in h;
    SplitFirstLine(h, currentContent);
    SplitFirstLine(w, h + "\n" + currentContent);
    SplitFirstLine(l, w + "\n" + (h + "\n" + currentContent));
    SplitAround(a, l + "\n" + (w + "\n" + (h + "\n" + currentContent)));
  }

  /** Concatenation regrouped: the pieces of a prompt after its second line. */
  lemma Regroup(head: string, nl: string, title: string, world: string,
                heading: string, content: string)
    ensures head + nl + title + world + nl + heading + nl + content
         == head + nl + ((title + world) + nl + (heading + nl + content))
  {
  }

  /** With a newline-free world, the prompt's lines are those of the
      template, topic and language, then one `World:` line, `Current
      Content:`, and the lines of the content, whatever the topic and the
      language hold. */
  lemma PromptWorldLine(promptBase: string, topic: string, language: string,
                        world: string, currentContent: string)
    requires '\n' !in world
    ensures Split(FullPrompt(promptBase, topic, language, world, currentContent))
         == Split(promptBase + "Topic: " + topic + "\n" + "Language: " + language)
            + ["World: " + world, "Current Content:"]
            + Split(currentContent)
  {
    var al := promptBase + "Topic: " + topic + "\n" + "Language: " + language;
    var w := "World: " + world;
    var h := "Current Content:";
    Regroup(al, "\n", "World: ", world, h, currentContent);
    NoNewlineIn("World: ", world);
    assert '\n' !in h;
    SplitFirstLine(h, currentContent);
    SplitFirstLine(w, h + "\n" + currentContent);
    SplitAround(al, w + "\n" + (h + "\n" + currentContent));
  }

  /** `json.dumps` of a list of strings with the default separators, given
      `json.dumps` of one string as `quote`. */
  function DumpList(quote: string -> string, items: seq<string>): string {
    "[" + DumpItems(quote, items) + "]"
  }

  function DumpItems(quote: string -> string, items: seq<string>): string {
    if |items| == 0 then ""
    else if |items| == 1 then quote(items[0])
    else quote(items[0]) + ", " + DumpItems(quote, items[1..])
  }

  /** The `World:` block: the description and the compacted segments. */
  function WorldBlock(quote: string -> string, description: string,
                      concise: seq<string>): (block: string)
    ensures StartsWith(block, "{\"Description\":" + quote(description))
    ensures EndsWith(block, DumpList(quote, concise) + "}")
  {
    var head := "{\"Description\":" + quote(description);
    var tail := DumpList(quote, concise) + "}";
    var block := head + ", \"Previous Plots/Stories\":" + tail;
    assert block[..|head|] == head;
    assert block[|block| - |tail|..] == tail;
    block
  }

  /** Since `json.dumps` escapes newlines, the `World:` block is a single
      line of the prompt. */
  lemma {:induction false} DumpItemsOneLine(quote: string -> string, items: seq<string>)
    requires forall s :: '\n' !in quote(s)
    ensures '\n' !in DumpItems(quote, items)
    decreases |items|
  {
    if |items| > 1 {
      DumpItemsOneLine(quote, items[1..]);
      NoNewlineIn(quote(items[0]) + ", ", DumpItems(quote, items[1..]));
    }
  }

  lemma WorldBlockOneLine(quote: string -> string, description: string,
                          concise: seq<string>)
    requires forall s :: '\n' !in quote(s)
    ensures '\n' !in WorldBlock(quote, description, concise)
  {
    DumpItemsOneLine(quote, concise);
  }
}
