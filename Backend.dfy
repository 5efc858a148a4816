/** The world store and the generation step of backend.py:
    `generate_content`, `create_new_world` and `clear_world`.

    A world file holds a description and a backstory, a list of story
    segments.  The file system is a map from file path to the world the
    file holds; the language model is a function `provider` from prompt to
    response, and `json.dumps` of one string is the function `quote`. */
module Backend {
  import opened Strings
  import opened Tags
  import opened Prompt

  /** The contents of one world file. */
  datatype World = World(description: string, backstory: seq<string>)

  /** The segment a generation step writes to: `"new"`, or an integer
      index into the backstory, negative ones counting from the end. */
  datatype SegmentRef = New | At(index: int)

  datatype Error =
    | FileNotFound(path: string)   // `open(..., "r")` on a missing file
    | IndexOutOfRange(index: int)  // `IndexError` from a backstory subscript

  datatype Result<T> = Ok(value: T) | Err(error: Error)

  /** What `generate_content` returns: the visible story text of the new
      completion and whether the model marked the story finished. */
  datatype Reply = Reply(text: string, ended: bool)

  /** A world with the backstory index a step targets. */
  datatype Slot = Slot(world: World, target: nat)

  /** Stands in for the current segment when it is still empty. */
  const Placeholder: string := "<empty>"

  /** A Python list subscript: `i` in range, or counted back from the end
      when negative. */
  function PyIndex(len: nat, i: int): (r: Result<nat>)
    ensures r.Ok? <==> 0 <= len + i && i < len
    ensures r.Ok? ==> r.value < len && (r.value == i || r.value == len + i)
    ensures r.Err? ==> r.error == IndexOutOfRange(i)
  {
    if 0 <= i < len then Ok(i)
    else if 0 <= len + i && i < 0 then Ok(len + i)
    else Err(IndexOutOfRange(i))
  }

  /** Resolves the segment reference: `"new"` appends an empty segment
      and targets it; an index is looked up in the backstory as it is. */
  function Open(w: World, ref: SegmentRef): (r: Result<Slot>)
    ensures r.Ok? ==> r.value.target < |r.value.world.backstory|
    ensures r.Ok? ==> r.value.world.description == w.description
  {
    match ref
    case New => Ok(Slot(World(w.description, w.backstory + [""]), |w.backstory|))
    case At(i) =>
      match PyIndex(|w.backstory|, i)
      case Ok(t) => Ok(Slot(w, t))
      case Err(e) => Err(e)
  }

  /** The backstory as the model sees it: every segment reduced to its
      `<info>` summary, and the segment being written blanked. */
  function Compact(backstory: seq<string>, target: nat): (concise: seq<string>)
    requires target < |backstory|
    ensures |concise| == |backstory|
  {
    seq(|backstory|, j requires 0 <= j < |backstory| =>
      if j == target then "" else Info(backstory[j]))
  }

  /** The compaction loop of `generate_content`: a summary per segment,
      then the target blanked. */
  method CompactBackstory(backstory: seq<string>, target: nat) returns (concise: seq<string>)
    requires target < |backstory|
    ensures concise == Compact(backstory, target)
  {
    concise := backstory;
    for i := 0 to |backstory|
      invariant |concise| == |backstory|
      invariant forall j :: 0 <= j < i ==> concise[j] == Info(backstory[j])
      invariant forall j :: i <= j < |backstory| ==> concise[j] == backstory[j]
    {
      var info := GetInfo(backstory[i]);
      concise := concise[i := info];
    }
    concise := concise[target := ""];
  }

  /** The segment text shown under `Current Content:`. */
  function Current(segment: string): (shown: string)
    ensures shown != ""
    ensures segment != "" ==> shown == segment
    ensures segment == "" ==> shown == Placeholder
  {
    if segment != "" then segment else Placeholder
  }

  /** The prompt of one generation step on a resolved slot. */
  function RoundPrompt(promptBase: string, topic: string, language: string,
                       quote: string -> string, slot: Slot): (prompt: string)
    requires slot.target < |slot.world.backstory|
    ensures StartsWith(prompt, promptBase)
    ensures EndsWith(prompt, Current(slot.world.backstory[slot.target]))
  {
    var b := slot.world.backstory;
    FullPrompt(promptBase, topic, language,
               WorldBlock(quote, slot.world.description, Compact(b, slot.target)),
               Current(b[slot.target]))
  }

  /** One step of `generate_content` on the world read from the file: the
      world to write back and the reply, or the error raised. */
  function Generate(w: World, ref: SegmentRef, promptBase: string, topic: string,
                    language: string, quote: string -> string,
                    provider: string -> string): (r: Result<(World, Reply)>)
    ensures r.Ok? ==> r.value.0.description == w.description
  {
    match Open(w, ref)
    case Err(e) => Err(e)
    case Ok(slot) =>
      var completion := "\n" + provider(RoundPrompt(promptBase, topic, language, quote, slot));
      Ok((Appended(slot, completion), Answer(completion)))
  }

  /** The world to write back: the completion added to the end of the
      target segment. */
  function Appended(slot: Slot, completion: string): (w: World)
    requires slot.target < |slot.world.backstory|
    ensures w.description == slot.world.description
    ensures |w.backstory| == |slot.world.backstory|
  {
    var b := slot.world.backstory;
    World(slot.world.description, b[slot.target := b[slot.target] + completion])
  }

  /** The reply to the caller: the narrative text of the completion and
      whether it ends with `<end>`. */
  function Answer(completion: string): (reply: Reply)
    ensures |reply.text| <= |completion|
    ensures reply.ended ==> |completion| >= |EndMarker|
  {
    TextNoLonger(completion);
    Reply(Text(completion), EndsWith(completion, EndMarker))
  }

  /** The file a world called `name` is stored in. */
  function WorldPath(name: string): (path: string)
    ensures StartsWith(path, "data/") && EndsWith(path, ".json")
    ensures |path| == |name| + 10 && path[5..|path| - 5] == name
  {
    var path := "data/" + name + ".json";
    assert path[..5] == "data/";
    assert path[|path| - 5..] == ".json";
    assert path[5..|path| - 5] == name;
    path
  }

  /** Distinct world names give distinct `data/<name>.json` path strings. */
  lemma WorldPathInjective(a: string, b: string)
    requires WorldPath(a) == WorldPath(b)
    ensures a == b
  {
    var p := WorldPath(a);
    assert a == p[5..|p| - 5];
  }

  /** The world files on disk. */
  class WorldStore {
    var files: map<string, World>

    constructor (files0: map<string, World>)
      ensures files == files0
    {
      files := files0;
    }

    /** `create_new_world`: a world with one empty segment, overwriting
        any world of that name. */
    method CreateNewWorld(name: string, description: string)
      modifies this
      ensures files == old(files)[WorldPath(name) := World(description, [""])]
    {
      var world := World(description, [""]);
      files := files[WorldPath(name) := world];
    }

    /** `clear_world`: empties the backstory and keeps the description;
        fails, changing nothing, when the file does not exist. */
    method ClearWorld(name: string) returns (r: Result<()>)
      modifies this
      ensures WorldPath(name) !in old(files) ==>
                r == Err(FileNotFound(WorldPath(name))) && files == old(files)
      ensures WorldPath(name) in old(files) ==>
                r == Ok(()) &&
                files == old(files)[WorldPath(name) := World(old(files)[WorldPath(name)].description, [])]
    {
      var path := WorldPath(name);
      if path !in files {
        return Err(FileNotFound(path));
      }
      var world := files[path];
      world := world.(backstory := []);
      files := files[path := world];
      r := Ok(());
    }

    /** `generate_content`: reads the world file, asks the model for the
        next part of the target segment, appends it and writes the world
        back.  On an error nothing is written. */
    method GenerateContent(promptBase: string, topic: string, language: string,
                           worldFile: string, ref: SegmentRef,
                           quote: string -> string, provider: string -> string)
      returns (r: Result<Reply>)
      modifies this
      ensures worldFile !in old(files) ==>
                r == Err(FileNotFound(worldFile)) && files == old(files)
      ensures worldFile in old(files) ==>
                match Generate(old(files)[worldFile], ref, promptBase, topic, language, quote, provider)
                case Err(e) => r == Err(e) && files == old(files)
                case Ok(step) => r == Ok(step.1) && files == old(files)[worldFile := step.0]
    {
      if worldFile !in files {
        return Err(FileNotFound(worldFile));
      }
      var world := files[worldFile];
      var backstory := world.backstory;
      var idx: int;
      match ref {
        case New =>
          backstory := backstory + [""];
          idx := |backstory| - 1;
        case At(i) =>
          idx := i;
      }
      if |backstory| + idx < 0 || |backstory| <= idx {
        return Err(IndexOutOfRange(idx));
      }
      var t: nat := if idx < 0 then |backstory| + idx else idx;
      ghost var slot := Slot(World(world.description, backstory), t);
      assert Open(world, ref) == Ok(slot);
      var concise := CompactBackstory(backstory, t);
      var current := if backstory[t] != "" then backstory[t] else Placeholder;
      var prompt := FullPrompt(promptBase, topic, language,
                               WorldBlock(quote, world.description, concise), current);
      assert prompt == RoundPrompt(promptBase, topic, language, quote, slot);
      var completion := "\n" + provider(prompt);
      backstory := backstory[t := backstory[t] + completion];
      files := files[worldFile := World(world.description, backstory)];
      var text := GetText(completion);
      r := Ok(Reply(text, EndsWith(completion, EndMarker)));
      assert World(world.description, backstory) == Appended(slot, completion);
    }
  }
}
