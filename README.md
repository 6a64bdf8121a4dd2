# XTTS-RVC-UI: the checkpoint cache and request logic, in Dafny

XTTS-RVC-UI is a web form in front of two external engines. XTTS turns text into speech in a
reference voice; RVC then re-voices that speech with a chosen conversion model. Nearly all of
`app.py` is I/O and foreign calls. This project models the four pieces that carry logic:

- **The checkpoint cache `RVC_Data`** (`checkpoint_cache.dfy`). It is a class whose fields are the
  resident model name and the five attributes returned by the loader. `load_cpt` is a method
  specified by the pure transition `Load` on an abstract `CacheState`. A ghost log records every
  path passed to the loader. The initial `current_model = {}` is `None`, so it equals no model name.
  A deleted attribute is `None` as well.
- **Model name, path and index selection in `voice_change`** (`model_files.dfy`). These functions
  cover `os.path.splitext` as CPython's POSIX version computes it, the `./rvcs/` path and the
  index-path rule. The rule takes the set of paths that are files as a parameter.
- **The catalog `get_rvc_voices`** (`catalog.dfy`). The `.pth` filter is a function. The `voices`
  and `rvcs` globals are fields of a class, which `Refresh` reassigns.
- **The request path `runtts`** (`synthesis.dfy`). It models the `strip()` guard and what the
  function returns. It also lists the engine calls made, with their arguments. The engines, the
  filesystem and the loader's answer are an `Environment` parameter.

Two consequences of the code as written are proved rather than assumed:

- `load_cpt` deletes the five attributes before calling the loader. If the loader raises, they
  stay deleted and `current_model` keeps its old name. From then on, a request for any other name
  stops at `del` with AttributeError, which is swallowed, so the loader is never called again
  (`FailureIsSticky`). A request for the old name is a cache hit with no weights, and conversion is
  skipped. One might expect a failed load to leave the cache usable; the code does not, and the
  model follows the code.
- `splitext` treats leading dots as part of the name. So for any stem made only of dots, the
  model files `<dots>pth` and `<dots>pth.pth` share the cache key `<dots>pth`: `.pth` and
  `.pth.pth`, `..pth` and `..pth.pth`, and so on. Selecting one after the other reuses the wrong
  weights (`HiddenNameCollision`, `CollidingNamesShareCheckpoint`). For stems with a non-dot
  character, the key determines the file (`ModelNameInjectiveOnPth`).

## Model

| member | source | states |
|---|---|---|
| `CheckpointCache.RvcData.constructor` | app.py:121-127 | the attributes exist and hold `{}`, no model is resident, and nothing has been loaded |
| `CheckpointCache.RvcData.LoadCpt` | app.py:129-138 | the new state is `Load` of the old state; the loader is called with the path exactly when the name differs from the resident one and the attributes still exist |
| `CheckpointCache.RvcData.GetVc` | app.py:134 | the loader runs only after the old bundle has been released, and its answer is returned unchanged |
| `CheckpointCache.Load` | app.py:129-138 | the resident name either stays or becomes the requested one, and it changes only to a successful load with the loader's bundle; the bundle changes only when the loader is reached |
| `CheckpointCache.CallsLoader` | app.py:131-135 | the loader is reached exactly when the requested name differs from the resident one and the attributes are still there for `del` (otherwise `del` raises AttributeError before `get_vc`) |
| `CheckpointCache.Run` | app.py:130-138 | the state after a series of `load_cpt` calls keeps the old resident name or holds one of the requested names |
| `CheckpointCache.LoaderCalls` | app.py:130-135 | the loader paths of a series of `load_cpt` calls: no more than there are calls, each one a requested path |
| `CheckpointCache.FirstLoadCallsLoader` | app.py:122-135 | the first call always reaches the loader; success makes the name resident, and failure leaves no name and no bundle |
| `CheckpointCache.CacheHit` | app.py:131 | a request for the resident name calls no loader and changes nothing |
| `CheckpointCache.MissThenLoaded` | app.py:131-135 | on a miss with a successful load, the requested name is resident with exactly the loader's bundle |
| `CheckpointCache.MissThenFailed` | app.py:133-138 | on a miss with a failed load, the old name stays but the bundle is gone, and the error does not propagate |
| `CheckpointCache.SameNameLoadsAtMostOnce` | app.py:131-135 | any run of calls with one name reaches the loader at most once; when the first call misses, exactly once, with its path; never when it is a hit |
| `CheckpointCache.FailureIsSticky` | app.py:131-138 | once the bundle is deleted, no later call for any name reaches the loader or changes the state |
| `CheckpointCache.ResidentIsLastRequested` | app.py:131-135 | after a run of successful loads, the last requested name is resident with a bundle |
| `ModelFiles.LastIndexOf` | app.py:144 | the last position of a character, or -1 when it is absent, as `rfind` gives it |
| `ModelFiles.SplitExt` | app.py:144 | stem plus extension is the input; the extension is empty, or a dot followed by no dot and no '/'; a split leaves a non-dot character in the root's last component; no split means no dot follows a non-dot character after the last '/' |
| `ModelFiles.ModelName` | app.py:144 | the cache key is a prefix of the file name: the part before the last dot of the final component when that dot starts a real extension (no dot or '/' after it, a non-dot before it), and otherwise the whole name, which then has no dot after a non-dot in its final component |
| `ModelFiles.ModelPath` | app.py:146 | the weights path is `./rvcs/` followed by the selected file name |
| `ModelFiles.IndexFile` | app.py:147 | the candidate index file is `./rvcs/<model name>.index` |
| `ModelFiles.Select` | app.py:144-147 | the key is `ModelName(rvc)`, the weights path is under `./rvcs/`; the index path is empty or the key's `./rvcs/<key>.index`, non-empty exactly when that file exists and the rate is not zero |
| `ModelFiles.SplitExtOfStem` | app.py:144 | a '/'-free name with a non-dot stem splits at the dot before its last extension |
| `ModelFiles.SplitExtOfHidden` | app.py:144 | a name made of leading dots and then no dot and no '/' has no extension |
| `ModelFiles.IndexPath` | app.py:147 | the path is non-empty exactly when `./rvcs/<name>.index` is a file and the rate is not zero; it is then that existing file |
| `ModelFiles.SelectCatalogEntry` | app.py:144-147 | for `stem.pth`, the key is `stem`, the path is `./rvcs/stem.pth`, and the index is `./rvcs/stem.index` exactly when it exists and the rate is not zero |
| `ModelFiles.ModelNameInjectiveOnPth` | app.py:144 | two `.pth` files with ordinary stems have the same key exactly when they are the same file |
| `ModelFiles.HiddenNameCollision` | app.py:144-146 | for any stem of dots, `<dots>pth` and `<dots>pth.pth` are different paths with the same key `<dots>pth` |
| `Catalog.EndsWith` | app.py:57 | `x.endswith(suffix)`: the suffix is the tail of the string |
| `Catalog.IsModelFile` | app.py:57 | the filter's test: the name ends with `.pth` |
| `Catalog.FilterPth` | app.py:57 | the result holds exactly the names ending in `.pth`, each as often as in the listing, and nothing else |
| `Catalog.FilterPthKeepsOrder` | app.py:57 | the filtered list keeps the listing's order |
| `Catalog.FilterPthAppend` | app.py:57 | filtering a concatenation concatenates the filtered parts |
| `Catalog.FilterPthIdempotent` | app.py:57 | filtering the filtered list changes nothing |
| `Catalog.VoiceCatalog.constructor` | app.py:49-50 | both lists start empty |
| `Catalog.VoiceCatalog.Refresh` | app.py:53-58 | `voices` becomes the listing unchanged, `rvcs` the filtered listing, and both are returned |
| `Synthesis.IsSpace` | app.py:62 | the characters Python's `strip()` removes, written out |
| `Synthesis.TrimStart` | app.py:62 | removes exactly the leading whitespace; the rest is a suffix that does not start with whitespace |
| `Synthesis.TrimEnd` | app.py:62 | removes exactly the trailing whitespace; the rest is a prefix that does not end with whitespace |
| `Synthesis.Strip` | app.py:62 | `strip()` gives neither leading nor trailing whitespace, and it is empty exactly when every character is whitespace |
| `Synthesis.IsBlank` | app.py:62 | the guard `not text.strip()` |
| `Synthesis.BlankIffAllSpace` | app.py:62 | `text.strip()` is empty exactly when every character is whitespace |
| `Synthesis.LoaderPaths` | app.py:134 | a path is among the loader paths of a call list exactly when the list holds a `get_vc` call with that path |
| `Synthesis.LoaderPathsAppend` | app.py:134 | the loader paths of two call lists in sequence are the paths of each, in sequence |
| `Synthesis.VoiceChange` | app.py:142-175 | the cache moves as one `load_cpt` for the model name; the loader gets the model path exactly on a miss; conversion with the index rule runs when a bundle is resident, and every conversion uses that bundle |
| `Synthesis.TtsCall` | app.py:66-73 | the `tts_to_file` call: the text, `./voices/<voice>`, the language, `./output.wav`, the temperature and the repetition penalty |
| `Synthesis.Synthesize` | app.py:60-79 | the outputs are the fixed pair exactly when the text is not blank and TTS returns, otherwise `[None, None]` with the cache unchanged; the loader is reached only along the first path, and only on a miss |
| `Synthesis.BlankTextDoesNothing` | app.py:62-63 | whitespace-only text returns `[None, None]`, calls no engine and leaves the cache unchanged |
| `Synthesis.NonBlankTextRunsTtsFirst` | app.py:66-79 | other text calls TTS first; if TTS returns, the result is the fixed path pair, whatever the loader did, and the cache moves as one `load_cpt` |
| `Synthesis.ConversionUsesResidentBundle` | app.py:147-171 | conversion uses the resident bundle and the fixed input and output files; its index path is empty, or an existing index file used with a non-zero rate |
| `Synthesis.CollidingNamesShareCheckpoint` | app.py:144-171 | selecting `.pth` while `.pth.pth` is resident calls no loader, keeps the cache as it was, and converts with the resident bundle |
| `Synthesis.FreshRequestWithoutIndex` | app.py:60-79 | from a fresh cache, a request for `stem.pth` with no index file calls TTS, loads `./rvcs/stem.pth` once, converts with the new bundle and an empty index path, and returns the fixed pair |
| `Synthesis.FreshVoiceChangeWithoutIndex` | app.py:142-171 | the conversion part of that request: one load of the entry's path, then conversion with the loaded bundle and an empty index path |
| `Synthesis.ScenarioSingerA` | app.py:60-79 | `singerA.pth` with no index file, from a fresh cache, gives both paths, makes `singerA` resident, and calls the engines with the expected arguments |
| `Synthesis.RunVoiceChange` | app.py:142-175 | the object ends in the state `VoiceChange` gives; the conversion call is the one the index rule and the resident bundle give, exactly when a bundle is resident; the load log grows by the loader paths `VoiceChange` lists |
| `Synthesis.RunTts` | app.py:60-79 | the returned list, the object's new state and the growth of its load log are those `Synthesize` gives |

## Left out

- `download_models` (app.py:20-37): HTTP fetches and file writes, which are network and filesystem I/O.
- Startup: argparse and silent mode (app.py:8-18), directory creation (app.py:39), device selection and engine construction (app.py:43-48). All of this is environment setup.
- The Gradio form, the dropdown defaults and the unused debounce script (app.py:81-118). This is UI.
- The engines: `tts_to_file`, `get_vc`, `rvc_infer` and `load_hubert` are foreign calls. The model records what is called and with which arguments. It reduces the outcome to "returns or raises", and for `rvc_infer` leaves even that out, because its failure is swallowed and changes nothing the model observes.
- `rvc_infer`'s fixed tuning arguments (`f0_method`, `filter_radius`, `rms_mix_rate`, `protect`, `crepe_hop_length`) and `hubert_model` are not recorded, because they are constants passed through.
- `print`, `gc.collect()` and the `input()` pauses after an error are left out. The model assumes `input()` returns. If standard input were closed, it would raise EOFError inside the handler, and `runtts` would return `[None, None]`.
- File contents: a successful request returns `./outputrvc.wav` even when conversion was skipped or failed, so that file may be stale. The model does not track file contents or overwrites.
- `index_rate` is a real number, so IEEE NaN and negative zero are not modelled.
- Concurrent requests racing on `rvc_data` and the fixed output paths are not modelled. Requests are taken one at a time.
