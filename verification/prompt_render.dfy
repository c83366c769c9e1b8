/** Prompt details, audio transcription columns and the rendering of a full
    prompt (`PromptManager::CreatePromptDetails`, `TranscribeAudioColumn`,
    `GetTemplate`, `Render`). */
module PromptRender {
  import opened Wrappers
  import opened Json
  import opened Columns
  import opened Text
  import opened PromptText
  import opened PromptTuples

  // -------------------------------------------------------- prompt details

  /** `PromptDetails`; the version of a literal prompt stays at -1. */
  datatype PromptDetails = PromptDetails(promptName: string, prompt: string, version: int)

  const SINGLE_KEY_ERROR: string :=
    "The prompt details struct should contain a single key value pair of prompt or prompt_name with prompt version"
  const EMPTY_PROMPT_ERROR: string := "The prompt cannot be empty"
  /** `std::stoi`'s message when no number can be read. */
  const STOI_ERROR: string := "stoi"

  /** The prompt table, whose query is not part of this model: the stored
      text and version of a named prompt, at the given version or the
      latest one; `None` when no row matches. */
  type PromptStore = (string, Option<int>) -> Option<(string, int)>

  /** The optional `version` key, read with `std::stoi`. */
  function RequestedVersion(fields: map<string, Value>): (r: Result<Option<int>>)
    ensures r == Ok(None) <==> "version" !in fields
    ensures r.Ok? && r.value.Some? ==>
      "version" in fields && fields["version"].Str? && Stoi(fields["version"].s) == Some(r.value.value)
  {
    if "version" !in fields then Ok(None)
    else if !fields["version"].Str? then Err(TYPE_ERROR)
    else match Stoi(fields["version"].s)
      case None => Err(STOI_ERROR)
      case Some(v) => Ok(Some(v))
  }

  function NotFound(name: string, version: Option<int>): (e: string) {
    "The provided `" + name + "` prompt "
      + (match version
         case Some(v) => "with version " + IntToString(v) + " not found"
         case None => "not found")
  }

  /** `CreatePromptDetails`: either a `prompt_name` (with an optional
      `version`) looked up in the store, or a literal non-empty `prompt` as
      the only key. Errors with an empty message become the single-key
      message. */
  function CreatePromptDetails(fields: map<string, Value>, store: PromptStore): (r: Result<PromptDetails>)
    ensures "prompt_name" !in fields && "prompt" !in fields ==> r == Err(SINGLE_KEY_ERROR)
    ensures "prompt_name" !in fields ==>
      (r.Ok? <==> fields.Keys == {"prompt"} && fields["prompt"].Str? && fields["prompt"].s != "")
    ensures "prompt_name" !in fields && r.Ok? ==>
      r.value == PromptDetails("", fields["prompt"].s, -1)
    ensures "prompt_name" in fields && r.Ok? ==>
      fields["prompt_name"] == Str(r.value.promptName) && RequestedVersion(fields).Ok? &&
      store(r.value.promptName, RequestedVersion(fields).value) == Some((r.value.prompt, r.value.version))
    ensures r.Err? ==> r.error != ""
  {
    if "prompt_name" in fields then
      if ("version" !in fields && |fields| > 1) || ("version" in fields && |fields| > 2) then Err(SINGLE_KEY_ERROR)
      else if !fields["prompt_name"].Str? then Err(TYPE_ERROR)
      else
        var name := fields["prompt_name"].s;
        match RequestedVersion(fields)
        case Err(e) => Err(e)
        case Ok(version) =>
          match store(name, version)
          case None => Err(NotFound(name, version))
          case Some(found) => Ok(PromptDetails(name, found.0, found.1))
    else if "prompt" in fields then
      if |fields| > 1 then Err(SINGLE_KEY_ERROR)
      else if !fields["prompt"].Str? then Err(TYPE_ERROR)
      else if fields["prompt"].s == "" then Err(EMPTY_PROMPT_ERROR)
      else
        SingleKey(fields, "prompt");
        Ok(PromptDetails("", fields["prompt"].s, -1))
    else Err(SINGLE_KEY_ERROR)
  }

  /** A map of one entry holds exactly that key. */
  lemma SingleKey(m: map<string, Value>, k: string)
    requires k in m && |m| <= 1
    ensures m.Keys == {k}
  {
    if x :| x in m.Keys && x != k {
      assert {k, x} <= m.Keys;
      SubsetSize({k, x}, m.Keys);
    }
  }

  lemma SubsetSize<T>(a: set<T>, b: set<T>)
    requires a <= b
    ensures |a| <= |b|
  {
    if a != {} {
      var x :| x in a;
      SubsetSize(a - {x}, b - {x});
    }
  }

  /** A named prompt takes no key besides `prompt_name` and `version`. */
  lemma NamedPromptKeys(fields: map<string, Value>, store: PromptStore)
    requires "prompt_name" in fields && CreatePromptDetails(fields, store).Ok?
    ensures fields.Keys <= {"prompt_name", "version"}
  {
    forall x | x in fields.Keys
      ensures x == "prompt_name" || x == "version"
    {
      if x != "prompt_name" && x != "version" {
        if "version" in fields {
          SubsetSize({"prompt_name", "version", x}, fields.Keys);
        } else {
          SubsetSize({"prompt_name", x}, fields.Keys);
        }
      }
    }
  }

  // ---------------------------------------------------------- transcription

  const TRANSCRIPTION_PREFIX: string := "transcription_of_"

  /** The name of the text column made from an audio column. */
  function TranscriptionName(c: Column): (n: string)
    ensures n == "transcription" <==> NameOf(c).None? || NameOf(c).value == ""
    ensures NameOf(c).Some? && NameOf(c).value != "" ==>
      |n| > |TRANSCRIPTION_PREFIX| && n[..|TRANSCRIPTION_PREFIX|] == TRANSCRIPTION_PREFIX &&
      n[|TRANSCRIPTION_PREFIX|..] == NameOf(c).value
  {
    var original := match NameOf(c) case Some(s) => s case None => "";
    if original == "" then "transcription" else TRANSCRIPTION_PREFIX + original
  }

  /** The transcription model, whose provider calls are not part of this
      model: from the model name and the audio items, one text per item or
      an error. */
  type Transcriber = (string, seq<Value>) -> Result<seq<Value>>

  /** `TranscribeAudioColumn`: a fresh column holding only a name and the
      transcriptions. */
  function TranscribeAudioColumn(c: Column, transcribe: Transcriber): (r: Result<Column>)
    requires "transcription_model" in c.meta
    ensures r.Err? <==> !c.meta["transcription_model"].Str? || transcribe(c.meta["transcription_model"].s, c.data).Err?
    ensures r.Ok? ==> r.value.meta.Keys == {"name"} && NameOf(r.value) == Some(TranscriptionName(c))
    ensures r.Ok? ==> r.value.data == transcribe(c.meta["transcription_model"].s, c.data).value
  {
    if !c.meta["transcription_model"].Str? then Err(TYPE_ERROR)
    else
      match transcribe(c.meta["transcription_model"].s, c.data)
      case Err(e) => Err(e)
      case Ok(texts) => Ok(Column(texts, map["name" := Str(TranscriptionName(c))]))
  }

  // --------------------------------------------------------------- template

  /** `GetTemplate`: the meta prompt with its instructions and response
      format filled in. The text of the meta prompt and of the per-function
      instructions and formats are parameters. */
  method GetTemplate(meta: string, instructions: string, responseFormat: string) returns (template: string)
    ensures template ==
      ReplaceAll(ReplaceAll(meta, Marker(INSTRUCTIONS), instructions), Marker(RESPONSE_FORMAT), responseFormat)
  {
    template := FillSection(meta, INSTRUCTIONS, instructions);
    template := FillSection(template, RESPONSE_FORMAT, responseFormat);
  }

  // ----------------------------------------------------------------- render

  /** Where the columns go: images to the media, everything else readable as
      text to the tuples. */
  datatype Parts = Parts(images: Batch, tabular: Batch)

  predicate HasType(c: Column, t: string) {
    "type" in c.meta && c.meta["type"] == Str(t)
  }

  /** One column of the partition loop. */
  function Route(p: Parts, c: Column, transcribe: Transcriber): (r: Result<Parts>) {
    if "type" !in c.meta then Ok(Parts(p.images, p.tabular + [c]))
    else if !c.meta["type"].Str? then Err(TYPE_ERROR)
    else if c.meta["type"].s == "image" then Ok(Parts(p.images + [c], p.tabular))
    else if c.meta["type"].s == "audio" then
      if "transcription_model" !in c.meta then Ok(p)
      else
        match TranscribeAudioColumn(c, transcribe)
        case Err(e) => Err(e)
        case Ok(t) => Ok(Parts(p.images, p.tabular + [t]))
    else Ok(Parts(p.images, p.tabular + [c]))
  }

  /** The partition of `cols`, column by column; the first error stops it. */
  function Partition(cols: Batch, transcribe: Transcriber): (r: Result<Parts>)
    decreases |cols|
  {
    if |cols| == 0 then Ok(Parts([], []))
    else
      match Partition(cols[..|cols| - 1], transcribe)
      case Err(e) => Err(e)
      case Ok(p) => Route(p, cols[|cols| - 1], transcribe)
  }

  /** Audio columns that are dropped because they name no transcription model. */
  function DroppedAudio(cols: Batch): (k: nat)
    decreases |cols|
  {
    if |cols| == 0 then 0
    else
      var c := cols[|cols| - 1];
      DroppedAudio(cols[..|cols| - 1]) + (if HasType(c, "audio") && "transcription_model" !in c.meta then 1 else 0)
  }

  /** Partitioning keeps every column but the dropped audio ones, puts only
      images in the media and no image or audio column in the tuples. */
  lemma {:induction false} PartitionSorts(cols: Batch, transcribe: Transcriber)
    requires Partition(cols, transcribe).Ok?
    ensures var p := Partition(cols, transcribe).value;
      |p.images| + |p.tabular| + DroppedAudio(cols) == |cols| &&
      (forall i :: 0 <= i < |p.images| ==> HasType(p.images[i], "image")) &&
      (forall i :: 0 <= i < |p.tabular| ==> !HasType(p.tabular[i], "image") && !HasType(p.tabular[i], "audio"))
    decreases |cols|
  {
    if |cols| > 0 {
      var init := cols[..|cols| - 1];
      PartitionSorts(init, transcribe);
      var c := cols[|cols| - 1];
      if "type" in c.meta && c.meta["type"] == Str("audio") && "transcription_model" in c.meta {
        var t := TranscribeAudioColumn(c, transcribe).value;
        assert "type" !in t.meta;
      }
    }
  }

  /** The partition of a concatenation is the concatenation of the
      partitions: each kind of column keeps its input order. */
  lemma {:induction false} PartitionAppend(a: Batch, b: Batch, transcribe: Transcriber)
    requires Partition(a + b, transcribe).Ok?
    ensures Partition(a, transcribe).Ok? && Partition(b, transcribe).Ok?
    ensures var p := Partition(a + b, transcribe).value;
      var pa := Partition(a, transcribe).value;
      var pb := Partition(b, transcribe).value;
      p.images == pa.images + pb.images && p.tabular == pa.tabular + pb.tabular
    decreases |b|
  {
    if |b| == 0 {
      assert a + b == a;
    } else {
      var b' := b[..|b| - 1];
      var c := b[|b| - 1];
      assert (a + b)[..|a + b| - 1] == a + b';
      assert (a + b)[|a + b| - 1] == c;
      PartitionAppend(a, b', transcribe);
      RouteAppend(Partition(a, transcribe).value, Partition(b', transcribe).value, c, transcribe);
    }
  }

  /** Routing a column after a prefix of parts adds what it adds to none. */
  lemma RouteAppend(pa: Parts, pb: Parts, c: Column, transcribe: Transcriber)
    requires Route(Parts(pa.images + pb.images, pa.tabular + pb.tabular), c, transcribe).Ok?
    ensures Route(pb, c, transcribe).Ok?
    ensures var r := Route(Parts(pa.images + pb.images, pa.tabular + pb.tabular), c, transcribe).value;
      var rb := Route(pb, c, transcribe).value;
      r.images == pa.images + rb.images && r.tabular == pa.tabular + rb.tabular
  {
    assert pa.images + pb.images + [c] == pa.images + (pb.images + [c]);
    assert pa.tabular + pb.tabular + [c] == pa.tabular + (pb.tabular + [c]);
    if Route(pb, c, transcribe).Ok? && |Route(pb, c, transcribe).value.tabular| > |pb.tabular| {
      var t := Route(pb, c, transcribe).value.tabular[|pb.tabular|];
      assert pa.tabular + pb.tabular + [t] == pa.tabular + (pb.tabular + [t]);
    }
  }

  /** `media_data`: the image columns and an always empty audio array. */
  function MediaJson(images: Batch): (v: Value)
    ensures v.Obj? && v.fields.Keys == {"image", "audio"}
    ensures v.fields["audio"] == Arr([]) && v.fields["image"] == BatchToJson(images)
  {
    Obj(map["image" := BatchToJson(images), "audio" := Arr([])])
  }

  /** `Render`: partitions the columns, fills the user prompt and, only when
      some column is tabular, the tuple block. With no tabular column the
      tuple format is never read, so an invalid one goes unnoticed. */
  method Render(userPrompt: string, cols: Batch, template: string, format: string,
                parse: FormatParser, ser: Serializer, transcribe: Transcriber)
    returns (r: Result<(string, Value)>)
    ensures Partition(cols, transcribe).Err? ==> r == Err(Partition(cols, transcribe).error)
    ensures Partition(cols, transcribe).Ok? ==>
      var p := Partition(cols, transcribe).value;
      var filled := ReplaceAll(template, Marker(USER_PROMPT), userPrompt);
      (r.Err? <==> |p.tabular| > 0 && parse(format).None?) &&
      (r.Err? ==> r.error == InvalidFormat(format)) &&
      (r.Ok? ==> r.value.1 == MediaJson(p.images)) &&
      (r.Ok? && |p.tabular| == 0 ==> r.value.0 == filled) &&
      (r.Ok? && |p.tabular| > 0 ==>
        var f := parse(format).value;
        r.value.0 == ReplaceAll(filled, Marker(TUPLES), NumTuples(RowCount(p.tabular)) + Header(p.tabular, f) + Body(p.tabular, f, ser)))
  {
    var parts := Ok(Parts([], []));
    var i := 0;
    while i < |cols| && parts.Ok?
      invariant i <= |cols|
      invariant parts == Partition(cols[..i], transcribe)
    {
      assert cols[..i + 1][..i] == cols[..i];
      parts := Route(parts.value, cols[i], transcribe);
      i := i + 1;
    }
    if parts.Err? {
      PartitionPrefix(cols, i, transcribe);
      return Err(parts.error);
    }
    assert cols[..|cols|] == cols;
    var media := MediaJson(parts.value.images);
    var prompt := FillSection(template, USER_PROMPT, userPrompt);
    if |parts.value.tabular| > 0 {
      var tuples := ConstructInputTuples(parts.value.tabular, format, parse, ser);
      if tuples.Err? {
        return Err(tuples.error);
      }
      prompt := FillSection(prompt, TUPLES, tuples.value);
    }
    return Ok((prompt, media));
  }

  /** An error in a prefix of the columns is the error of the whole. */
  lemma {:induction false} PartitionPrefix(cols: Batch, i: nat, transcribe: Transcriber)
    requires i <= |cols| && Partition(cols[..i], transcribe).Err?
    ensures Partition(cols, transcribe) == Partition(cols[..i], transcribe)
    decreases |cols| - i
  {
    if i < |cols| {
      assert cols[..i + 1][..i] == cols[..i];
      PartitionPrefix(cols, i + 1, transcribe);
    } else {
      assert cols[..i] == cols;
    }
  }
}
