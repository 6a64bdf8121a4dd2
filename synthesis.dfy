/**
 * The request path `runtts` -> `voice_change` -> `load_cpt` (app.py:60-79,
 * 142-175). The two engines, the filesystem and the loader are abstracted as
 * an `Environment` that says what each foreign call would do; the model
 * records which engine calls are made, with their arguments.
 */
module Synthesis {
  import opened Wrappers
  import opened ModelFiles
  import opened CheckpointCache

  const TtsOutput: string := "./output.wav"
  const RvcOutput: string := "./outputrvc.wav"
  const VoiceDir: string := "./voices/"

  /**
   * The characters `str.strip()` removes: those Python classes as
   * whitespace (tab to carriage return, the four separators U+001C to
   * U+001F, space, next line, no-break space and the Unicode spaces and
   * line/paragraph separators).
   */
  predicate IsSpace(c: char)
  {
    ('\t' <= c <= '\r') || ('\U{1C}' <= c <= '\U{1F}') || c == ' ' || c == '\U{85}' || c == '\U{A0}' ||
    c == '\U{1680}' || ('\U{2000}' <= c <= '\U{200A}') || c == '\U{2028}' || c == '\U{2029}' ||
    c == '\U{202F}' || c == '\U{205F}' || c == '\U{3000}'
  }

  /** `s.lstrip()`. */
  function TrimStart(s: string): (r: string)
    ensures |r| <= |s| && r == s[|s| - |r|..]
    ensures forall k :: 0 <= k < |s| - |r| ==> IsSpace(s[k])
    ensures r == [] || !IsSpace(r[0])
  {
    if s != [] && IsSpace(s[0]) then TrimStart(s[1..]) else s
  }

  /** `s.rstrip()`. */
  function TrimEnd(s: string): (r: string)
    ensures |r| <= |s| && r == s[..|r|]
    ensures forall k :: |r| <= k < |s| ==> IsSpace(s[k])
    ensures r == [] || !IsSpace(r[|r| - 1])
  {
    if s != [] && IsSpace(s[|s| - 1]) then TrimEnd(s[..|s| - 1]) else s
  }

  /** `s.strip()`. */
  function Strip(s: string): (r: string)
    ensures |r| <= |s|
    ensures r == [] || (!IsSpace(r[0]) && !IsSpace(r[|r| - 1]))
    ensures r == [] <==> forall k :: 0 <= k < |s| ==> IsSpace(s[k])
  {
    TrimEnd(TrimStart(s))
  }

  /** The guard `not text.strip()` (app.py:62). */
  predicate IsBlank(text: string)
  {
    Strip(text) == []
  }

  /** The guard holds exactly for text made only of whitespace, the empty text included. */
  lemma BlankIffAllSpace(text: string)
    ensures IsBlank(text) <==> forall k :: 0 <= k < |text| ==> IsSpace(text[k])
  {
  }

  /** The form's inputs, in `runtts`' parameter order (app.py:60). */
  datatype Request = Request(rvc: string, voice: string, text: string, pitchChange: int,
                             indexRate: real, temperature: real, repetitionPenalty: real, language: string)

  /**
   * What the outside world does: the paths that are files, whether the TTS
   * engine returns normally, and what the checkpoint loader would answer.
   */
  datatype Environment = Environment(files: set<string>, ttsSucceeds: bool, loader: LoadOutcome)

  /** A call into an external engine, with the arguments app.py passes. */
  datatype EngineCall =
    | TtsToFile(text: string, speakerWav: string, language: string, filePath: string,
                temperature: real, repetitionPenalty: real)
    | GetVcCall(modelPath: string)
    | RvcInfer(indexPath: string, indexRate: real, inputPath: string, outputPath: string,
               pitchChange: int, bundle: Bundle)

  /** The two-element list `runtts` returns. */
  datatype Outputs = Outputs(ttsResult: Option<string>, rvcResult: Option<string>)

  const NoResult: Outputs := Outputs(None, None)
  const BothResults: Outputs := Outputs(Some(TtsOutput), Some(RvcOutput))

  datatype Outcome = Outcome(outputs: Outputs, state: CacheState, calls: seq<EngineCall>)

  /** The paths passed to the checkpoint loader in a list of engine calls, in order. */
  function LoaderPaths(calls: seq<EngineCall>): (r: seq<string>)
    ensures |r| <= |calls|
    ensures forall p :: p in r <==> GetVcCall(p) in calls
  {
    if calls == [] then []
    else
      assert calls == [calls[0]] + calls[1..];
      (if calls[0].GetVcCall? then [calls[0].modelPath] else []) + LoaderPaths(calls[1..])
  }

  lemma {:induction false} LoaderPathsAppend(a: seq<EngineCall>, b: seq<EngineCall>)
    ensures LoaderPaths(a + b) == LoaderPaths(a) + LoaderPaths(b)
  {
    if a == [] {
      assert a + b == b;
    } else {
      assert (a + b)[0] == a[0];
      assert (a + b)[1..] == a[1..] + b;
      LoaderPathsAppend(a[1..], b);
    }
  }

  /**
   * `voice_change(rvc, pitch_change, index_rate)`: derive the names, load
   * through the cache, then convert with whatever bundle is resident. Reading
   * a deleted attribute for `rvc_infer`'s arguments raises AttributeError, so
   * no conversion is attempted then; every failure is swallowed here.
   */
  function VoiceChange(s: CacheState, rvc: string, pitchChange: int, indexRate: real, env: Environment)
    : (r: (CacheState, seq<EngineCall>))
    ensures r.0 == Load(s, ModelName(rvc), env.loader)
    ensures LoaderPaths(r.1) == if CallsLoader(s, ModelName(rvc)) then [ModelPath(rvc)] else []
    ensures r.0.bundle.Some? ==>
      RvcInfer(Select(rvc, indexRate, env.files).indexPath, indexRate, TtsOutput, RvcOutput, pitchChange, r.0.bundle.value) in r.1
    ensures forall c :: c in r.1 && c.RvcInfer? ==>
      (r.0.bundle == Some(c.bundle) &&
       c == RvcInfer(Select(rvc, indexRate, env.files).indexPath, indexRate, TtsOutput, RvcOutput, pitchChange, c.bundle))
  {
    var sel := Select(rvc, indexRate, env.files);
    var loadCalls := if CallsLoader(s, sel.modelName) then [GetVcCall(sel.modelPath)] else [];
    var s' := Load(s, sel.modelName, env.loader);
    var infer := match s'.bundle
      case None => []
      case Some(b) => [RvcInfer(sel.indexPath, indexRate, TtsOutput, RvcOutput, pitchChange, b)];
    LoaderPathsAppend(loadCalls, infer);
    assert LoaderPaths(infer) == [] by {
      if s'.bundle.Some? { assert infer == [RvcInfer(sel.indexPath, indexRate, TtsOutput, RvcOutput, pitchChange, s'.bundle.value)]; }
    }
    (s', loadCalls + infer)
  }

  /** The TTS call `runtts` makes for a request (app.py:66-73). */
  function TtsCall(req: Request): EngineCall
  {
    TtsToFile(req.text, VoiceDir + req.voice, req.language, TtsOutput, req.temperature, req.repetitionPenalty)
  }

  /** `runtts(...)` from cache state `s`: the returned list, the new cache state and the engine calls made. */
  function Synthesize(s: CacheState, req: Request, env: Environment): (r: Outcome)
    ensures r.outputs == if !IsBlank(req.text) && env.ttsSucceeds then BothResults else NoResult
    ensures r.outputs == NoResult ==> r.state == s
    ensures LoaderPaths(r.calls) ==
      if !IsBlank(req.text) && env.ttsSucceeds && CallsLoader(s, ModelName(req.rvc)) then [ModelPath(req.rvc)] else []
  {
    if IsBlank(req.text) then Outcome(NoResult, s, [])
    else if !env.ttsSucceeds then
      assert LoaderPaths([TtsCall(req)]) == [];
      Outcome(NoResult, s, [TtsCall(req)])
    else
      var (s', calls) := VoiceChange(s, req.rvc, req.pitchChange, req.indexRate, env);
      LoaderPathsAppend([TtsCall(req)], calls);
      assert LoaderPaths([TtsCall(req)]) == [];
      Outcome(BothResults, s', [TtsCall(req)] + calls)
  }

  /** Whitespace-only text returns `[None, None]`, calls no engine and leaves the cache as it was. */
  lemma BlankTextDoesNothing(s: CacheState, req: Request, env: Environment)
    requires forall k :: 0 <= k < |req.text| ==> IsSpace(req.text[k])
    ensures Synthesize(s, req, env) == Outcome(NoResult, s, [])
  {
    BlankIffAllSpace(req.text);
  }

  /**
   * Text with a non-space character is always synthesised first; once TTS
   * returns, the answer is the fixed pair of paths whatever the loader and
   * the conversion did, and the cache moves as one `load_cpt` call says.
   */
  lemma NonBlankTextRunsTtsFirst(s: CacheState, req: Request, env: Environment)
    requires exists k :: 0 <= k < |req.text| && !IsSpace(req.text[k])
    ensures |Synthesize(s, req, env).calls| >= 1 && Synthesize(s, req, env).calls[0] == TtsCall(req)
    ensures Synthesize(s, req, env).outputs == if env.ttsSucceeds then BothResults else NoResult
    ensures Synthesize(s, req, env).state ==
      if env.ttsSucceeds then Load(s, ModelName(req.rvc), env.loader) else s
  {
    BlankIffAllSpace(req.text);
  }

  /**
   * Whenever conversion runs, it uses the bundle now resident, reads
   * ./output.wav, writes ./outputrvc.wav, and gets an index path that is
   * empty or names an existing index file, and only when the rate is not zero.
   */
  lemma ConversionUsesResidentBundle(s: CacheState, req: Request, env: Environment, c: EngineCall)
    requires c in Synthesize(s, req, env).calls && c.RvcInfer?
    ensures Synthesize(s, req, env).state.bundle == Some(c.bundle)
    ensures c.inputPath == TtsOutput && c.outputPath == RvcOutput
    ensures c.indexPath == "" || (c.indexPath in env.files && c.indexRate != 0.0 &&
                                  c.indexPath == IndexFile(ModelName(req.rvc)))
  {
    assert !IsBlank(req.text) && env.ttsSucceeds;
    var vc := VoiceChange(s, req.rvc, req.pitchChange, req.indexRate, env);
    assert Synthesize(s, req, env).calls == [TtsCall(req)] + vc.1;
    assert c in vc.1;
  }

  /**
   * Selecting ".pth" after ".pth.pth" was loaded is a cache hit: the loader
   * is not called, and conversion runs with the weights of the other file.
   */
  lemma CollidingNamesShareCheckpoint(b: Bundle, req: Request, env: Environment)
    requires req.rvc == ".pth" && !IsBlank(req.text) && env.ttsSucceeds
    ensures var s := CacheState(Some(ModelName(".pth.pth")), Some(b));
      Synthesize(s, req, env).state == s &&
      (forall c :: c in Synthesize(s, req, env).calls ==> !c.GetVcCall?) &&
      RvcInfer(IndexPath(".pth", req.indexRate, env.files), req.indexRate, TtsOutput, RvcOutput, req.pitchChange, b)
        in Synthesize(s, req, env).calls
  {
    PthCollision();
    var s := CacheState(Some(ModelName(".pth.pth")), Some(b));
    var infer := RvcInfer(IndexPath(".pth", req.indexRate, env.files), req.indexRate, TtsOutput, RvcOutput, req.pitchChange, b);
    assert VoiceChange(s, req.rvc, req.pitchChange, req.indexRate, env) == (s, [] + [infer]);
  }

  /** The two model files `.pth` and `.pth.pth` share the key `.pth`. */
  lemma PthCollision()
    ensures ModelName(".pth") == ModelName(".pth.pth") == ".pth"
  {
    HiddenNameCollision(".");
    assert "." + "pth" == ".pth";
    assert "." + "pth.pth" == ".pth.pth";
  }

  /**
   * A request for a catalog entry `stem.pth` with no index file, from the
   * fresh cache and with both foreign calls succeeding: TTS, one load of the
   * entry, then conversion with the new bundle and an empty index path.
   */
  lemma FreshRequestWithoutIndex(stem: string, req: Request, files: set<string>, b: Bundle)
    requires forall k :: 0 <= k < |stem| ==> stem[k] != '/'
    requires HasNonDot(stem, 0, |stem|)
    requires req.rvc == stem + ".pth" && !IsBlank(req.text) && IndexFile(stem) !in files
    ensures Synthesize(Initial, req, Environment(files, true, Loaded(b))) ==
      Outcome(BothResults, CacheState(Some(stem), Some(b)),
              [TtsCall(req), GetVcCall(RvcDir + stem + ".pth"),
               RvcInfer("", req.indexRate, TtsOutput, RvcOutput, req.pitchChange, b)])
  {
    var env := Environment(files, true, Loaded(b));
    var calls := [GetVcCall(RvcDir + stem + ".pth"), RvcInfer("", req.indexRate, TtsOutput, RvcOutput, req.pitchChange, b)];
    FreshVoiceChangeWithoutIndex(stem, req.pitchChange, req.indexRate, env);
    assert VoiceChange(Initial, req.rvc, req.pitchChange, req.indexRate, env) == (CacheState(Some(stem), Some(b)), calls);
    assert [TtsCall(req)] + calls == [TtsCall(req), calls[0], calls[1]];
    assert Synthesize(Initial, req, env) == Outcome(BothResults, CacheState(Some(stem), Some(b)), [TtsCall(req)] + calls);
  }

  /** The `voice_change` part of `FreshRequestWithoutIndex`. */
  lemma FreshVoiceChangeWithoutIndex(stem: string, pitchChange: int, indexRate: real, env: Environment)
    requires forall k :: 0 <= k < |stem| ==> stem[k] != '/'
    requires HasNonDot(stem, 0, |stem|)
    requires IndexFile(stem) !in env.files && env.loader.Loaded?
    ensures VoiceChange(Initial, stem + ".pth", pitchChange, indexRate, env) ==
      (CacheState(Some(stem), Some(env.loader.bundle)),
       [GetVcCall(RvcDir + stem + ".pth"), RvcInfer("", indexRate, TtsOutput, RvcOutput, pitchChange, env.loader.bundle)])
  {
    var sel := Select(stem + ".pth", indexRate, env.files);
    assert sel == Selection(stem, RvcDir + stem + ".pth", "") by {
      SelectCatalogEntry(stem, indexRate, env.files);
      assert RvcDir + stem + IndexSuffix == "./rvcs/" + stem + ".index";
    }
    assert CallsLoader(Initial, stem);
    assert Load(Initial, stem, env.loader) == CacheState(Some(stem), Some(env.loader.bundle));
    var infer := RvcInfer("", indexRate, TtsOutput, RvcOutput, pitchChange, env.loader.bundle);
    assert [GetVcCall(sel.modelPath)] + [infer] == [GetVcCall(RvcDir + stem + ".pth"), infer];
  }

  /** "hello world" with model singerA.pth, voice alice.wav, rate 0.75 and no index file, from the initial cache. */
  lemma ScenarioSingerA(files: set<string>, b: Bundle)
    requires "./rvcs/singerA.index" !in files
    ensures var req := Request("singerA.pth", "alice.wav", "hello world", 0, 0.75, 1.0, 1.0, "en");
      var o := Synthesize(Initial, req, Environment(files, true, Loaded(b)));
      o.outputs == BothResults && o.state == CacheState(Some("singerA"), Some(b)) &&
      o.calls == [TtsToFile("hello world", "./voices/alice.wav", "en", TtsOutput, 1.0, 1.0),
                  GetVcCall("./rvcs/singerA.pth"),
                  RvcInfer("", 0.75, TtsOutput, RvcOutput, 0, b)]
  {
    var req := Request("singerA.pth", "alice.wav", "hello world", 0, 0.75, 1.0, 1.0, "en");
    HelloWorldIsNotBlank();
    SingerAPaths();
    FreshRequestWithoutIndex("singerA", req, files, b);
  }

  lemma HelloWorldIsNotBlank()
    ensures !IsBlank("hello world")
  {
    assert !IsSpace("hello world"[0]);
  }

  /** The literal paths of the singerA scenario. */
  lemma SingerAPaths()
    ensures "singerA.pth" == "singerA" + ".pth"
    ensures forall k :: 0 <= k < |"singerA"| ==> "singerA"[k] != '/'
    ensures HasNonDot("singerA", 0, 7)
    ensures IndexFile("singerA") == "./rvcs/singerA.index"
    ensures RvcDir + "singerA" + ".pth" == "./rvcs/singerA.pth"
    ensures VoiceDir + "alice.wav" == "./voices/alice.wav"
  {
    assert "singerA"[0] != '.';
  }

  /** `voice_change` on the object `rvc_data`; answers the conversion call it made, if any. */
  method RunVoiceChange(data: RvcData, rvc: string, pitchChange: int, indexRate: real, env: Environment)
    returns (inferred: Option<EngineCall>)
    requires data.Valid()
    modifies data
    ensures data.Valid()
    ensures data.State() == VoiceChange(old(data.State()), rvc, pitchChange, indexRate, env).0
    ensures inferred == if data.State().bundle.Some?
      then Some(RvcInfer(Select(rvc, indexRate, env.files).indexPath, indexRate, TtsOutput, RvcOutput,
                         pitchChange, data.State().bundle.value))
      else None
    ensures inferred.Some? ==> inferred.value in VoiceChange(old(data.State()), rvc, pitchChange, indexRate, env).1
    ensures data.loads == old(data.loads) + LoaderPaths(VoiceChange(old(data.State()), rvc, pitchChange, indexRate, env).1)
  {
    var sel := Select(rvc, indexRate, env.files);
    data.LoadCpt(sel.modelName, sel.modelPath, env.loader);
    if data.cpt.None? {
      // building `rvc_infer`'s arguments reads a deleted attribute: AttributeError, swallowed
      inferred := None;
    } else {
      var b := Bundle(data.cpt.value, data.version.value, data.netG.value, data.tgtSr.value, data.vc.value);
      inferred := Some(RvcInfer(sel.indexPath, indexRate, TtsOutput, RvcOutput, pitchChange, b));
    }
  }

  /** `runtts(...)` on the object `rvc_data` (app.py:60-79). */
  method RunTts(data: RvcData, req: Request, env: Environment) returns (outputs: Outputs)
    requires data.Valid()
    modifies data
    ensures data.Valid()
    ensures outputs == Synthesize(old(data.State()), req, env).outputs
    ensures data.State() == Synthesize(old(data.State()), req, env).state
    ensures data.loads == old(data.loads) + LoaderPaths(Synthesize(old(data.State()), req, env).calls)
  {
    if IsBlank(req.text) {
      // ValueError("Text input is required for synthesis."), caught below the call
      return NoResult;
    }
    if !env.ttsSucceeds {
      return NoResult;
    }
    var _ := RunVoiceChange(data, req.rvc, req.pitchChange, req.indexRate, env);
    outputs := BothResults;
  }
}
