# Story engine core, modelled in Dafny

This project models `backend.py`, the narrative-continuation engine of a
story-writing web application. A *world* is a JSON file with a
`description` and a `backstory`, a list of story segments. Each generation
step works like this:

1. It resolves which segment to continue: `"new"` appends an empty one, and an
   integer is a Python list index, so `-1` means the last segment.
2. It shows the language model a prompt. The prompt holds a template, the
   topic, the language, the world with every segment reduced to its
   `<info>…</info>` summary and the target segment blanked, and the target
   segment itself (`<empty>` while it is empty).
3. It appends a newline and the model's response to the target segment.
4. It returns the response's narrative text, with info regions dropped and
   everything from the first `<end>` line on cut off, together with whether
   the response ends with `<end>`.

Modules:

- `Strings` gives Python's `str.split("\n")`, `"\n".join`, `str.strip()`
  (with Python's whitespace set), `startswith` and `endswith`, and the
  split/join algebra the proofs need.
- `Tags` holds the line scanner of `get_text` and `get_info`. Each is a
  method with the source's `for` loop and the `in_info` flag. Only
  `get_text`'s loop has the early `break`, at the first `<end>` line. Each
  method is proved equal to a specification function (`Text`, `Info`)
  defined by recursion on the number of lines read. The lemmas are about
  those functions.
- `Prompt` holds `get_full_prompt` and the `World:` block.
- `Backend` holds the world value, index resolution, the compaction loop,
  the step function `Generate`, and the class `WorldStore`. The store keeps
  the world files as a map from path to world, and its methods
  `CreateNewWorld`, `ClearWorld` and `GenerateContent` update that map in
  place.
- `GenerateFacts` holds the lemmas about one step and about sequences of
  steps.

The language model is the parameter `provider` (a function from prompt to
response). `json.dumps` of a single string is the parameter `quote`. A
list of strings is written out with the default separators (`[`, `, `,
`]`) around `quote` of each item.

Notes on behaviour that follows the code:

- `get_text` is not idempotent, although a reader might expect a
  normaliser to be. `"  <info>\nhello"` gives `"<info>\nhello"`, because
  the indented tag line does not start with `<info>`. Applying `get_text`
  again then gives `""`. `Tags.TextNotIdempotent` proves this.
- Only the `<info>`, `</info>` and `<end>` prefixes are recognised. Any
  other tag is ordinary text.
- An out-of-range index raises before the model is called and before
  anything is written. The model returns `IndexOutOfRange` and leaves the
  store unchanged.

## Model

| member | source | states |
|---|---|---|
| Tags.GetText | backend.py:66-79 | the loop, with its flag and its break at the first `<end>` line, returns exactly `Text(content)` |
| Tags.GetInfo | backend.py:81-92 | the loop returns exactly `Info(content)` |
| Tags.TextLinesTagFree | backend.py:70-78 | no line collected for the narrative starts with `<info>`, `</info>` or `<end>` |
| Tags.InfoLinesTagFree | backend.py:85-91 | no line collected for the summary starts with `<info>` or `</info>` |
| Tags.TextIgnoresAfterEnd | backend.py:75-76 | once the content has a line starting with `<end>`, appending any text leaves `get_text` unchanged |
| Tags.EndLineCutsText | backend.py:75-76 | two line lists that agree before an `<end>` line at the same position give the same narrative lines |
| Tags.TextStopsAt | backend.py:75-76 | no line from an `<end>` line onwards is collected |
| Tags.TextLinesSubsequence | backend.py:67-78 | the collected narrative lines are the input lines with some dropped, in their original order |
| Tags.InfoLinesSubsequence | backend.py:82-91 | the collected summary lines are the input lines with some dropped, in their original order |
| Tags.TextNoLonger | backend.py:66-79 | the narrative is never longer than the content |
| Tags.InfoNoLonger | backend.py:81-92 | the summary is never longer than the segment |
| Tags.TextOfUntagged | backend.py:67-79 | when no line starts with a tag, `get_text` is `content.strip()` |
| Tags.TextLinesAllUntagged | backend.py:70-78 | with no tag lines, every line is collected and the scanner never enters an info region |
| Tags.InfoWithoutOpen | backend.py:81-92 | with no line starting with `<info>`, `get_info` returns `""` |
| Tags.InfoLinesWithoutOpen | backend.py:84-91 | with no opening line, no summary line is collected |
| Tags.InInfoBeforeIff | backend.py:84-89 | the scanner is inside an info region before line `i` exactly when some earlier line opens one and no later line before `i` closes it |
| Tags.StrayCloseShift | backend.py:87-88 | a `</info>` line read outside any region has no effect: the scan without it has the same flag, narrative and summary lines |
| Tags.ScanDependsOnPrefix | backend.py:70-78 | the scanner's state after `n` lines depends only on those lines |
| Tags.TextIgnoresLeadingNewline | backend.py:111 | the narrative of `"\n" + response` is that of `response` |
| Tags.TextNotIdempotent | backend.py:79 | for `"  <info>\nhello"`, `get_text` gives `"<info>\nhello"`, and applying it again gives `""` |
| Prompt.FullPrompt | backend.py:51-52 | the prompt starts with the template and ends with the current content |
| Prompt.PromptLines | backend.py:51-52 | with newline-free topic, language and world, the prompt's lines are the template's with `Topic: ` and the topic on its last line, then `Language:`, `World:` and `Current Content:` lines, then the content's lines |
| Prompt.WorldBlock | backend.py:109 | the `World:` string starts with `{"Description":` and the quoted description, and ends with the dumped compacted backstory and `}` |
| Prompt.PromptWorldLine | backend.py:51-52 | with a newline-free world and any topic and language, the prompt's lines are those of the template, topic and language, then one `World:` line, `Current Content:` and the content's lines |
| Prompt.WorldBlockOneLine | backend.py:109 | when `json.dumps` emits no newline, the `World:` block holds no newline |
| Backend.PyIndex | backend.py:104 | a subscript succeeds exactly for `-len <= i < len`; a negative index counts from the end; otherwise it is an `IndexError` |
| Backend.Open | backend.py:96-99 | a resolved target is a valid index of the world's backstory, and the description is kept |
| Backend.Compact | backend.py:101-104 | the compacted backstory has as many entries as the backstory |
| Backend.CompactBackstory | backend.py:101-104 | the loop builds exactly the compacted backstory: the summary of each segment, with the target blanked |
| Backend.Current | backend.py:110 | the shown content is the segment itself when it is not empty, and `<empty>` when it is |
| Backend.RoundPrompt | backend.py:106-110 | the prompt of one step starts with the template and ends with the shown content of the target segment |
| Backend.Appended | backend.py:113 | the world to write back keeps the description and the number of segments |
| Backend.Answer | backend.py:116 | the reply text is never longer than the completion, and a completion shorter than `<end>` is never marked finished; its value for each completion a step forms is given by `GenerateFacts.AnswerIgnoresNewline` |
| Backend.Generate | backend.py:94-116 | a step never changes the world's description |
| Backend.WorldPath | backend.py:123 | a world called `name` lives in `data/<name>.json`: the path is `data/`, the name and `.json` |
| Backend.WorldPathInjective | backend.py:123 | distinct world names give distinct `data/<name>.json` path strings |
| Backend.WorldStore.CreateNewWorld | backend.py:118-125 | the world's path now holds the description and a single empty segment; the entry of every other path string is unchanged |
| Backend.WorldStore.ClearWorld | backend.py:127-133 | a missing file is an error and changes nothing; otherwise the backstory becomes empty and the description is kept |
| Backend.WorldStore.GenerateContent | backend.py:94-116 | a missing file or a bad index is an error and changes nothing; otherwise the file holds the stepped world and the reply is the step's reply |
| GenerateFacts.GenerateFailsIff | backend.py:97-104 | a step fails exactly when it gets an integer index outside the backstory, and then with `IndexOutOfRange` for that index |
| GenerateFacts.GenerateNewSegment | backend.py:97-99 | `"new"` makes the backstory the old one plus one segment holding `"\n"` plus the response |
| GenerateFacts.GenerateAppends | backend.py:104-113 | with an index in range, the selected segment becomes old + `"\n"` + response; no segment is added or dropped, and every other segment is unchanged |
| GenerateFacts.LastGrowsSegment | backend.py:104-113 | index `-1` extends the last segment and keeps the others |
| GenerateFacts.GenerateReply | backend.py:111-116 | the reply text is the narrative of the bare response, and the flag holds exactly when the response ends with `<end>` |
| GenerateFacts.AnswerIgnoresNewline | backend.py:111-116 | the answer for `"\n" + response` is the narrative and end flag of the response itself |
| GenerateFacts.EndedIgnoresNewline | backend.py:116 | the leading newline never changes whether the completion ends with `<end>` |
| GenerateFacts.TrailingNewlineNotEnded | backend.py:116 | a completion ending in a newline is never marked finished, even right after `<end>` |
| GenerateFacts.CompactNoLonger | backend.py:101-104 | no compacted entry is longer than its segment |
| GenerateFacts.CompactSameIff | backend.py:101-104 | two backstories compact alike exactly when their summaries agree outside the target |
| GenerateFacts.PromptSeesSummariesOnly | backend.py:101-110 | the prompt depends on the other segments only through their summaries |
| GenerateFacts.PromptEndsWithCurrent | backend.py:106-110 | the prompt starts with the template and ends with the target segment, or with `<empty>` while that segment is empty |
| GenerateFacts.PromptLayout | backend.py:106-110 | when `json.dumps` emits no newline, for any topic and language, the prompt's lines are those of the template, topic and language, then exactly one `World:` line, `Current Content:` and the shown segment's lines |
| GenerateFacts.NewThenContinue | backend.py:97-113 | a `"new"` step followed by a `-1` step leaves one new segment: `"\n"` + first response + `"\n"` + second response |
| GenerateFacts.AfterClear | backend.py:97-104 | on a cleared world every integer index fails, and `"new"` starts a single segment |

## Left out

- `server.py` is not part of this model. It is HTTP routing, static files,
  markdown rendering and an external translation call.
- `get_response` and the Cerebras client (backend.py:10-12, 54-64) are a
  network call. The model is the parameter `provider`. A failed call, which
  would raise before anything is written, is not modelled.
- File reads and writes, and `json.load`/`json.dump`, are left out. The
  files are the map `WorldStore.files`, keyed by path. A file that cannot
  be written, or a missing `data/` directory, is not modelled.
- WorldStore: a file is identified by its path string. Paths that name one
  file through `.` or `..` segments, symbolic links or a case-insensitive
  file system (`data/w.json` and `data/./w.json`, or `World` and `world`)
  are different files in the model. There, `ClearWorld` or
  `GenerateContent` can report `FileNotFound` where the program would open
  the file another name created.
- `json.dumps` of a single string is the parameter `quote`. Its escaping is
  not modelled. `PromptLayout` assumes only that it emits no newline.
  Topic and language may hold newlines of their own.
- The prompt templates (backend.py:14-49) are constant prose. The template
  is a parameter.
- The interactive `__main__` loop (backend.py:135-145) is console I/O.
  `NewThenContinue` states the pattern it drives: `"new"`, then `-1`.
- Any index that is not an int or `"new"` is left out: a float, `None` or
  another string would be a `TypeError` in Python, and a bool would index
  as 0 or 1. The model's `SegmentRef` cannot express one. The index
  defaults to `"new"` when it is not given; the model always takes an
  explicit `SegmentRef`.
- A description that is not a JSON string is left out. The description is
  a string.
- Concurrent requests writing the same world file are left out.
- Backend.Compact: its contract states only the length. The entries are
  its definition, and `CompactBackstory`, `CompactSameIff` and
  `CompactNoLonger` state what they mean.
