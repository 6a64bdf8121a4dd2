/**
 * The single-slot checkpoint cache `RVC_Data` (app.py:120-138). It holds the
 * name of the resident conversion model and the five attributes the loader
 * `get_vc` returns. `load_cpt` reloads only when the requested name differs
 * from the resident one; it deletes the old attributes with `del` before it
 * loads, and it records the new name only when the load succeeds. Every
 * exception inside it is printed and swallowed.
 */
module CheckpointCache {
  import opened Wrappers

  /**
   * A value held by one attribute: the empty dict `{}` the constructor
   * stores, or an object produced by the loader (opaque here).
   */
  datatype Value = EmptyDict | Handle(id: nat)

  /** The five attributes `cpt, version, net_g, tgt_sr, vc`, in the loader's order. */
  datatype Bundle = Bundle(cpt: Value, version: Value, netG: Value, tgtSr: Value, vc: Value)

  /** What `get_vc` does when it is called: return a bundle, or raise. */
  datatype LoadOutcome = Loaded(bundle: Bundle) | LoadFailed

  /**
   * The abstract state: the resident name (`None` for the initial `{}`,
   * which equals no model name) and the bundle (`None` once `del` removed it).
   */
  datatype CacheState = CacheState(currentModel: Option<string>, bundle: Option<Bundle>)

  const Placeholder: Bundle := Bundle(EmptyDict, EmptyDict, EmptyDict, EmptyDict, EmptyDict)

  /** The state `__init__` leaves (app.py:121-127). */
  const Initial: CacheState := CacheState(None, Some(Placeholder))

  /**
   * `load_cpt` reaches the loader exactly when the name differs from the
   * resident one and the attributes are still there for `del` to remove;
   * deleting an attribute that is already gone raises AttributeError first.
   */
  predicate CallsLoader(s: CacheState, modelName: string)
  {
    s.currentModel != Some(modelName) && s.bundle.Some?
  }

  /** The state after `load_cpt(modelName, path)` when the loader would answer `outcome`. */
  function Load(s: CacheState, modelName: string, outcome: LoadOutcome): (r: CacheState)
    ensures r.currentModel == s.currentModel || r.currentModel == Some(modelName)
    ensures r.currentModel != s.currentModel ==> r.bundle.Some? && outcome.Loaded? && r.bundle.value == outcome.bundle
    ensures r.bundle != s.bundle ==> CallsLoader(s, modelName)
  {
    if !CallsLoader(s, modelName) then s
    else match outcome
      case LoadFailed => CacheState(s.currentModel, None)
      case Loaded(b) => CacheState(Some(modelName), Some(b))
  }

  /** One call of `load_cpt`: the name, the path, and what the loader would answer. */
  datatype LoadRequest = LoadRequest(modelName: string, modelPath: string, outcome: LoadOutcome)

  /** The state after a series of `load_cpt` calls. */
  function Run(s: CacheState, reqs: seq<LoadRequest>): (r: CacheState)
    ensures r.currentModel == s.currentModel
      || exists i :: 0 <= i < |reqs| && r.currentModel == Some(reqs[i].modelName)
    decreases |reqs|
  {
    if reqs == [] then s
    else Run(Load(s, reqs[0].modelName, reqs[0].outcome), reqs[1..])
  }

  /** The paths the loader is called with during a series of `load_cpt` calls, in order. */
  function LoaderCalls(s: CacheState, reqs: seq<LoadRequest>): (r: seq<string>)
    ensures |r| <= |reqs|
    ensures forall p :: p in r ==> exists i :: 0 <= i < |reqs| && reqs[i].modelPath == p
    decreases |reqs|
  {
    if reqs == [] then []
    else
      (if CallsLoader(s, reqs[0].modelName) then [reqs[0].modelPath] else [])
      + LoaderCalls(Load(s, reqs[0].modelName, reqs[0].outcome), reqs[1..])
  }

  /** The first call always loads, whatever the name: `{}` equals no string. */
  lemma FirstLoadCallsLoader(modelName: string, outcome: LoadOutcome)
    ensures CallsLoader(Initial, modelName)
    ensures outcome.Loaded? ==> Load(Initial, modelName, outcome) == CacheState(Some(modelName), Some(outcome.bundle))
    ensures outcome.LoadFailed? ==> Load(Initial, modelName, outcome) == CacheState(None, None)
  {
  }

  /** Asking for the resident name changes nothing and calls no loader. */
  lemma CacheHit(s: CacheState, modelName: string, outcome: LoadOutcome)
    requires s.currentModel == Some(modelName)
    ensures !CallsLoader(s, modelName) && Load(s, modelName, outcome) == s
  {
  }

  /** A miss with a successful loader makes the requested model resident with the loader's bundle. */
  lemma MissThenLoaded(s: CacheState, modelName: string, b: Bundle)
    requires CallsLoader(s, modelName)
    ensures Load(s, modelName, Loaded(b)) == CacheState(Some(modelName), Some(b))
  {
  }

  /** A miss whose load fails keeps the old name but has already discarded the old bundle. */
  lemma MissThenFailed(s: CacheState, modelName: string)
    requires CallsLoader(s, modelName)
    ensures Load(s, modelName, LoadFailed) == CacheState(s.currentModel, None)
  {
  }

  /**
   * Any number of consecutive calls with one name reach the loader at most
   * once: after the first attempt the name is resident or the attributes are gone.
   */
  lemma {:induction false} SameNameLoadsAtMostOnce(s: CacheState, modelName: string, reqs: seq<LoadRequest>)
    requires forall i :: 0 <= i < |reqs| ==> reqs[i].modelName == modelName
    ensures |LoaderCalls(s, reqs)| <= 1
    ensures CallsLoader(s, modelName) && reqs != [] ==> LoaderCalls(s, reqs) == [reqs[0].modelPath]
    ensures !CallsLoader(s, modelName) ==> LoaderCalls(s, reqs) == [] && Run(s, reqs) == s
    decreases |reqs|
  {
    if reqs != [] {
      var s' := Load(s, modelName, reqs[0].outcome);
      assert !CallsLoader(s', modelName);
      SameNameLoadsAtMostOnce(s', modelName, reqs[1..]);
    }
  }

  /**
   * Once a load has failed, the attributes stay deleted: no later call, for
   * any name, reaches the loader, and the state never changes again.
   */
  lemma {:induction false} FailureIsSticky(s: CacheState, reqs: seq<LoadRequest>)
    requires s.bundle.None?
    ensures LoaderCalls(s, reqs) == []
    ensures Run(s, reqs) == s
    decreases |reqs|
  {
    if reqs != [] {
      assert Load(s, reqs[0].modelName, reqs[0].outcome) == s;
      FailureIsSticky(s, reqs[1..]);
    }
  }

  /**
   * From a state that holds a bundle, a series of successful loads always
   * leaves the most recently requested name resident with its own bundle.
   */
  lemma {:induction false} ResidentIsLastRequested(s: CacheState, reqs: seq<LoadRequest>)
    requires s.bundle.Some?
    requires |reqs| > 0
    requires forall i :: 0 <= i < |reqs| ==> reqs[i].outcome.Loaded?
    ensures Run(s, reqs).currentModel == Some(reqs[|reqs| - 1].modelName)
    ensures Run(s, reqs).bundle.Some?
    decreases |reqs|
  {
    var s' := Load(s, reqs[0].modelName, reqs[0].outcome);
    assert s'.currentModel == Some(reqs[0].modelName) && s'.bundle.Some?;
    if |reqs| > 1 {
      ResidentIsLastRequested(s', reqs[1..]);
    }
  }

  /** The object `rvc_data`. `loads` is a ghost log of the paths passed to the loader. */
  class RvcData {
    var currentModel: Option<string>
    var cpt: Option<Value>
    var version: Option<Value>
    var netG: Option<Value>
    var tgtSr: Option<Value>
    var vc: Option<Value>
    ghost var loads: seq<string>

    /** The five attributes are deleted together and assigned together. */
    ghost predicate Valid()
      reads this
    {
      version.Some? == cpt.Some? && netG.Some? == cpt.Some? &&
      tgtSr.Some? == cpt.Some? && vc.Some? == cpt.Some?
    }

    function State(): CacheState
      reads this
      requires Valid()
    {
      CacheState(currentModel,
        if cpt.Some? then Some(Bundle(cpt.value, version.value, netG.value, tgtSr.value, vc.value))
        else None)
    }

    ghost function LoadCount(): nat
      reads this
    {
      |loads|
    }

    /** `__init__` (app.py:121-127). */
    constructor ()
      ensures Valid() && State() == Initial && loads == []
    {
      currentModel := None;
      cpt, version, netG, tgtSr, vc := Some(EmptyDict), Some(EmptyDict), Some(EmptyDict), Some(EmptyDict), Some(EmptyDict);
      loads := [];
    }

    /**
     * The foreign call `get_vc(device, is_half, config, path)`. Its
     * precondition records that the old checkpoint is released before the
     * new one is loaded, so at most one model is resident at a time.
     */
    method GetVc(modelPath: string, outcome: LoadOutcome) returns (r: LoadOutcome)
      requires Valid() && State().bundle.None?
      modifies this`loads
      ensures r == outcome
      ensures loads == old(loads) + [modelPath]
    {
      loads := loads + [modelPath];
      r := outcome;
    }

    /** `load_cpt(modelname, rvc_model_path)` (app.py:129-138). */
    method LoadCpt(modelName: string, modelPath: string, outcome: LoadOutcome)
      requires Valid()
      modifies this
      ensures Valid()
      ensures State() == Load(old(State()), modelName, outcome)
      ensures loads == old(loads) + if CallsLoader(old(State()), modelName) then [modelPath] else []
    {
      if currentModel != Some(modelName) {
        if cpt.None? {
          // `del` of a missing attribute raises AttributeError; the handler prints and waits
          return;
        }
        cpt, version, netG, tgtSr, vc := None, None, None, None, None;
        var result := GetVc(modelPath, outcome);
        match result {
          case LoadFailed =>
            // the error is printed and swallowed; `current_model` is not updated
          case Loaded(b) =>
            cpt, version, netG, tgtSr, vc := Some(b.cpt), Some(b.version), Some(b.netG), Some(b.tgtSr), Some(b.vc);
            currentModel := Some(modelName);
        }
      }
    }
  }

  /** Two calls with one name load once; a failed load blocks every later load. */
  method CacheClient(a: Bundle)
  {
    var data := new RvcData();
    data.LoadCpt("singerA", "./rvcs/singerA.pth", Loaded(a));
    data.LoadCpt("singerA", "./rvcs/singerA.pth", Loaded(a));
    assert data.loads == ["./rvcs/singerA.pth"];
    assert data.State() == CacheState(Some("singerA"), Some(a));
    data.LoadCpt("singerB", "./rvcs/singerB.pth", LoadFailed);
    assert data.State() == CacheState(Some("singerA"), None);
    data.LoadCpt("singerC", "./rvcs/singerC.pth", Loaded(a));
    assert data.LoadCount() == 2;
    assert data.State() == CacheState(Some("singerA"), None);
  }
}
