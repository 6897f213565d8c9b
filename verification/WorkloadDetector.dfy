/** Recognising AI workloads: an ordered cascade over a process's name and command. */
module WorkloadDetector {
  import opened Wrappers
  import opened Text
  import opened Sequences
  import opened Snapshots

  datatype Detection = Detection(
    kind: WorkloadKind, role: Role, title: string, modelHint: string, reason: string, confidence: real)

  // ----- words of a command -----

  method SplitWords(text: string) returns (words: seq<string>)
    ensures words == Words(text)
  {
    hide Words;
    words := [];
    var current := "";
    var i := 0;
    Empty(Words(text));
    assert "" + text[0..] == text;
    while i < |text|
      invariant 0 <= i <= |text|
      invariant forall k | 0 <= k < |current| :: !IsSpace(current[k])
      invariant Words(text) == words + Words(current + text[i..])
    {
      assert text[i..] == [text[i]] + text[i + 1..];
      if IsSpace(text[i]) {
        assert current + text[i..] == current + [text[i]] + text[i + 1..];
        WordsSplit(current, text[i], text[i + 1..]);
        assert "" + text[i + 1..] == text[i + 1..];
        if current != "" {
          WordsOfToken(current);
          Associate(words, [current], Words(text[i + 1..]));
          words := words + [current];
          current := "";
        } else {
          WordsOfEmpty();
          Empty(Words(text[i + 1..]));
        }
      } else {
        assert current + text[i..] == (current + [text[i]]) + text[i + 1..];
        current := current + [text[i]];
      }
      i := i + 1;
    }
    assert current + text[i..] == current;
    if current != "" {
      WordsOfToken(current);
      words := words + [current];
    } else {
      WordsOfEmpty();
      Empty(words);
    }
  }

  function ValueAfterFlag(tokens: seq<string>, flag: string): Option<string> {
    if |tokens| < 2 then None
    else if tokens[0] == flag then Some(tokens[1])
    else ValueAfterFlag(tokens[1..], flag)
  }

  function AfterLastSlash(path: string, end: nat): string
    requires end <= |path|
  {
    if end == 0 then path
    else if path[end - 1] == '/' || path[end - 1] == '\\' then path[end..]
    else AfterLastSlash(path, end - 1)
  }

  function BasenameLike(path: string): string {
    AfterLastSlash(path, |path|)
  }

  predicate IsModelFile(word: string) {
    var w := Lower(word);
    Contains(w, ".gguf") || Contains(w, ".safetensors") || Contains(w, ".onnx") || Contains(w, ".mlmodelc")
  }

  function FirstModelFile(words: seq<string>): string {
    if words == [] then ""
    else if IsModelFile(words[0]) then BasenameLike(words[0])
    else FirstModelFile(words[1..])
  }

  function GenericModelHint(command: string): string {
    FirstModelFile(Words(command))
  }

  function ModelFlagHint(command: string): string {
    var words := Words(command);
    var long, short := ValueAfterFlag(words, "--model"), ValueAfterFlag(words, "-m");
    if long.Some? then BasenameLike(long.value)
    else if short.Some? then BasenameLike(short.value)
    else GenericModelHint(command)
  }

  function NameOr(name: string, fallback: string): string {
    if name == "" then fallback else name
  }

  /** The last part of a path: what stands behind its last slash or backslash. */
  ghost predicate IsLastPart(part: string, path: string) {
    && '/' !in part && '\\' !in part
    && exists k | 0 <= k <= |path| :: part == path[k..] && (k == 0 || path[k - 1] == '/' || path[k - 1] == '\\')
  }

  lemma {:induction false} AfterLastSlashIs(path: string, end: nat)
    requires end <= |path| && forall i | end <= i < |path| :: path[i] != '/' && path[i] != '\\'
    ensures IsLastPart(AfterLastSlash(path, end), path)
  {
    if end == 0 {
      assert path == path[0..];
    } else if path[end - 1] == '/' || path[end - 1] == '\\' {
      assert '/' !in path[end..] && '\\' !in path[end..];
    } else {
      AfterLastSlashIs(path, end - 1);
    }
  }

  /** The word right behind the first flag that has one. */
  ghost predicate IsFlagValue(words: seq<string>, flag: string, i: nat) {
    i + 1 < |words| && words[i] == flag && forall j | 0 <= j < i :: words[j] != flag
  }

  lemma {:induction false} ValueAfterFlagIs(words: seq<string>, flag: string, i: nat)
    requires IsFlagValue(words, flag, i)
    ensures ValueAfterFlag(words, flag) == Some(words[i + 1])
  {
    if i > 0 {
      ValueAfterFlagIs(words[1..], flag, i - 1);
    }
  }

  lemma {:induction false} NoFlagNoValue(words: seq<string>, flag: string)
    requires forall i | 0 <= i < |words| - 1 :: words[i] != flag
    ensures ValueAfterFlag(words, flag) == None
  {
    if |words| >= 2 {
      assert forall i | 0 <= i < |words[1..]| - 1 :: words[1..][i] == words[i + 1];
      NoFlagNoValue(words[1..], flag);
    }
  }

  /** The model hint of a command: the last part of the word behind --model, or else of the word behind -m. */
  lemma ModelHintIs(command: string, i: nat)
    ensures var words := Words(command);
            && (IsFlagValue(words, "--model", i) ==> IsLastPart(ModelFlagHint(command), words[i + 1]))
            && (IsFlagValue(words, "-m", i) && (forall j | 0 <= j < |words| - 1 :: words[j] != "--model") ==>
                  IsLastPart(ModelFlagHint(command), words[i + 1]))
  {
    hide Words, GenericModelHint, AfterLastSlash, IsLastPart;
    var words := Words(command);
    if IsFlagValue(words, "--model", i) {
      ValueAfterFlagIs(words, "--model", i);
      AfterLastSlashIs(words[i + 1], |words[i + 1]|);
    } else if IsFlagValue(words, "-m", i) && forall j | 0 <= j < |words| - 1 :: words[j] != "--model" {
      NoFlagNoValue(words, "--model");
      ValueAfterFlagIs(words, "-m", i);
      AfterLastSlashIs(words[i + 1], |words[i + 1]|);
    }
  }

  // ----- the cascade -----

  function DetectOllama(p: Process, name: string, command: string): Option<Detection> {
    if name == "ollama" || Contains(command, "ollama serve") then
      Some(Detection(Ollama, Manager, "ollama", "", "ollama manager process", 0.96))
    else if Contains(name, "ollama") && Contains(command, "runner") then
      Some(Detection(Ollama, Runner, "ollama runner", ModelFlagHint(p.command), "ollama runner process", 0.95))
    else if Contains(command, ".ollama") || Contains(command, "ollama run") then
      Some(Detection(Ollama, Runner, "ollama", ModelFlagHint(p.command), "ollama command or model path", 0.72))
    else None
  }

  function DetectLlamaCpp(p: Process, name: string, command: string, text: string): Option<Detection> {
    if name in ["llama-server", "llama-cli", "llama-bench"] then
      Some(Detection(LlamaCpp, Server, p.name, ModelFlagHint(p.command), "llama.cpp executable name", 0.94))
    else if Contains(command, ".gguf") || Contains(command, "ggml") ||
            (Contains(command, "--model") && Contains(text, "llama")) then
      Some(Detection(LlamaCpp, Runner, NameOr(p.name, "llama.cpp"), ModelFlagHint(p.command),
                     "model path or llama.cpp flag", 0.70))
    else None
  }

  function DetectMlx(p: Process, name: string, command: string, text: string): Option<Detection> {
    if Contains(name, "mlx-lm") || Contains(name, "mlx_lm") ||
       Contains(command, "python -m mlx_lm") || Contains(command, "mlx_lm.server") then
      Some(Detection(Mlx, Server, NameOr(p.name, "mlx"), ModelFlagHint(p.command), "MLX LM process", 0.93))
    else if Contains(text, "mlx-vlm") || Contains(text, "mlx_lm") || Contains(text, " mlx ") then
      Some(Detection(Mlx, Worker, NameOr(p.name, "mlx"), ModelFlagHint(p.command), "MLX command hint", 0.68))
    else None
  }

  function DetectApps(p: Process, name: string, command: string, text: string): Option<Detection> {
    if Contains(command, "lm studio.app") || Contains(command, "lmstudio") || Contains(name, "lm studio") then
      Some(Detection(LmStudio, Server, "LM Studio", ModelFlagHint(p.command), "LM Studio app or server path", 0.92))
    else if Contains(text, "comfyui") || Contains(command, "custom_nodes") then
      Some(Detection(ComfyUi, Server, "ComfyUI", GenericModelHint(p.command), "ComfyUI path or custom nodes", 0.92))
    else if Contains(command, "safetensors") && (Contains(command, "diffusion") || Contains(command, "main.py")) then
      Some(Detection(ComfyUi, Worker, "ComfyUI", GenericModelHint(p.command), "diffusion model path", 0.72))
    else None
  }

  function DetectPython(p: Process, name: string, command: string): Option<Detection> {
    if Contains(name, "uvicorn") || Contains(command, "uvicorn") || Contains(command, "fastapi") ||
       Contains(command, "gradio") || Contains(command, "vllm") || Contains(command, "torchserve") then
      Some(Detection(PythonInference, Server, NameOr(p.name, "python server"), ModelFlagHint(p.command),
                     "Python inference server", 0.84))
    else if Contains(command, "transformers") || Contains(command, "diffusers") ||
            Contains(command, "sentence_transformers") then
      Some(Detection(PythonInference, Worker, NameOr(p.name, "python inference"), ModelFlagHint(p.command),
                     "Python model library hint", 0.66))
    else None
  }

  function DetectGeneric(p: Process): Detection {
    var hint := GenericModelHint(p.command);
    if hint != "" then
      Detection(GenericModel, UnknownRole, NameOr(p.name, "model process"), hint, "model file extension", 0.62)
    else Detection(UnknownKind, UnknownRole, "", "", "no AI workload signal", 0.0)
  }

  /** The first family that recognises the process decides. */
  function DetectWorkloadProcess(p: Process): Detection {
    var name, command := Lower(p.name), Lower(p.command);
    var text := name + " " + command;
    var ollama := DetectOllama(p, name, command);
    if ollama.Some? then ollama.value else
    var llama := DetectLlamaCpp(p, name, command, text);
    if llama.Some? then llama.value else
    var mlx := DetectMlx(p, name, command, text);
    if mlx.Some? then mlx.value else
    var apps := DetectApps(p, name, command, text);
    if apps.Some? then apps.value else
    var python := DetectPython(p, name, command);
    if python.Some? then python.value else DetectGeneric(p)
  }

  // ----- which roles and confidences go together -----

  /** All combinations the cascade can produce. */
  predicate Producible(d: Detection) {
    match d.kind
    case Ollama =>
      (d.role == Manager && d.confidence == 0.96) || (d.role == Runner && d.confidence in {0.95, 0.72})
    case LlamaCpp => (d.role == Server && d.confidence == 0.94) || (d.role == Runner && d.confidence == 0.70)
    case Mlx => (d.role == Server && d.confidence == 0.93) || (d.role == Worker && d.confidence == 0.68)
    case LmStudio => d.role == Server && d.confidence == 0.92
    case ComfyUi => (d.role == Server && d.confidence == 0.92) || (d.role == Worker && d.confidence == 0.72)
    case PythonInference => (d.role == Server && d.confidence == 0.84) || (d.role == Worker && d.confidence == 0.66)
    case GenericModel => d.role == UnknownRole && d.confidence == 0.62
    case UnknownKind => d.role == UnknownRole && d.confidence == 0.0
  }

  lemma DetectionIsProducible(p: Process)
    ensures Producible(DetectWorkloadProcess(p))
  {
    var name, command := Lower(p.name), Lower(p.command);
    var text := name + " " + command;
    OllamaProducible(p, name, command);
    LlamaProducible(p, name, command, text);
    MlxProducible(p, name, command, text);
    AppsProducible(p, name, command, text);
    PythonProducible(p, name, command);
    GenericProducible(p);
    hide DetectOllama, DetectLlamaCpp, DetectMlx, DetectApps, DetectPython, DetectGeneric, Lower, Producible;
  }

  lemma OllamaProducible(p: Process, name: string, command: string)
    ensures DetectOllama(p, name, command).Some? ==> Producible(DetectOllama(p, name, command).value)
  {
    hide Contains, ModelFlagHint;
  }

  lemma LlamaProducible(p: Process, name: string, command: string, text: string)
    ensures DetectLlamaCpp(p, name, command, text).Some? ==> Producible(DetectLlamaCpp(p, name, command, text).value)
  {
    hide Contains, ModelFlagHint;
  }

  lemma MlxProducible(p: Process, name: string, command: string, text: string)
    ensures DetectMlx(p, name, command, text).Some? ==> Producible(DetectMlx(p, name, command, text).value)
  {
    hide Contains, ModelFlagHint;
  }

  lemma AppsProducible(p: Process, name: string, command: string, text: string)
    ensures DetectApps(p, name, command, text).Some? ==> Producible(DetectApps(p, name, command, text).value)
  {
    hide Contains, ModelFlagHint, GenericModelHint;
  }

  lemma PythonProducible(p: Process, name: string, command: string)
    ensures DetectPython(p, name, command).Some? ==> Producible(DetectPython(p, name, command).value)
  {
    hide Contains, ModelFlagHint;
  }

  lemma GenericProducible(p: Process)
    ensures Producible(DetectGeneric(p))
  {
    hide GenericModelHint;
  }
}
