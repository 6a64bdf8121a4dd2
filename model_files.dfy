/**
 * How `voice_change` turns the selected conversion-model file name into the
 * cache key, the weights path and the optional index path (app.py:144-147).
 * `os.path.splitext` is modelled as CPython's POSIX version computes it.
 */
module ModelFiles {

  /** The directory that holds conversion models and their index files. */
  const RvcDir: string := "./rvcs/"
  const IndexSuffix: string := ".index"

  /** `s.rfind(c)`: the last position of `c` in `s`, or -1. */
  function LastIndexOf(s: string, c: char): (r: int)
    ensures -1 <= r < |s|
    ensures r >= 0 ==> s[r] == c
    ensures forall k :: r < k < |s| ==> s[k] != c
  {
    if s == [] then -1
    else if s[|s| - 1] == c then |s| - 1
    else LastIndexOf(s[..|s| - 1], c)
  }

  /** Some character of `p[lo..hi]` is not a dot. */
  predicate HasNonDot(p: string, lo: int, hi: int)
  {
    exists k :: lo <= k < hi && 0 <= k < |p| && p[k] != '.'
  }

  /**
   * `os.path.splitext(p)`: the extension starts at the last dot after the
   * last '/', unless everything before that dot in the final component is
   * dots (a leading dot marks a hidden file, not an extension).
   */
  function SplitExt(p: string): (r: (string, string))
    ensures r.0 + r.1 == p
    ensures r.1 == [] || (r.1[0] == '.' && forall k :: 0 <= k < |r.1| ==> r.1[k] != '/')
    ensures forall k :: 0 < k < |r.1| ==> r.1[k] != '.'
    ensures r.1 != [] ==> HasNonDot(r.0, LastIndexOf(r.0, '/') + 1, |r.0|)
    ensures r.1 == [] ==> forall i, j :: LastIndexOf(p, '/') < j < i < |p| && p[j] != '.' ==> p[i] != '.'
  {
    var sep := LastIndexOf(p, '/');
    var dot := LastIndexOf(p, '.');
    if dot > sep && HasNonDot(p, sep + 1, dot) then
      LastIndexOfPrefix(p, '/', dot);
      var k :| sep + 1 <= k < dot && 0 <= k < |p| && p[k] != '.';
      assert p[..dot][k] == p[k];
      (p[..dot], p[dot..])
    else
      (p, "")
  }

  /** `os.path.splitext(rvc)[0]`: the cache key (app.py:144) is the file name, or the part before a real extension. */
  function ModelName(rvc: string): (r: string)
    ensures |r| <= |rvc| && rvc[..|r|] == r
    ensures r == rvc || (rvc[|r|] == '.' && HasNonDot(r, LastIndexOf(r, '/') + 1, |r|))
    ensures r != rvc ==> forall k :: |r| < k < |rvc| ==> rvc[k] != '.' && rvc[k] != '/'
    ensures r == rvc ==> forall i, j :: LastIndexOf(rvc, '/') < j < i < |rvc| && rvc[j] != '.' ==> rvc[i] != '.'
  {
    var sp := SplitExt(rvc);
    assert rvc[..|sp.0|] == sp.0;
    assert forall k :: |sp.0| <= k < |rvc| ==> rvc[k] == sp.1[k - |sp.0|];
    sp.0
  }

  /** `"./rvcs/" + rvc` (app.py:146). */
  function ModelPath(rvc: string): string
  {
    RvcDir + rvc
  }

  /** The index file that would pair with a model name. */
  function IndexFile(modelName: string): string
  {
    RvcDir + modelName + IndexSuffix
  }

  /**
   * The index path handed to conversion (app.py:147): the index file when it
   * is a file (`files` is the set of paths `os.path.isfile` accepts) and
   * `indexRate` is not zero, otherwise the empty path.
   */
  function IndexPath(modelName: string, indexRate: real, files: set<string>): (r: string)
    ensures r != "" <==> IndexFile(modelName) in files && indexRate != 0.0
    ensures r != "" ==> r == IndexFile(modelName) && r in files
  {
    if IndexFile(modelName) in files && indexRate != 0.0 then IndexFile(modelName) else ""
  }

  /** Everything `voice_change` derives from its arguments before it loads. */
  datatype Selection = Selection(modelName: string, modelPath: string, indexPath: string)

  function Select(rvc: string, indexRate: real, files: set<string>): (r: Selection)
    ensures r.modelName == ModelName(rvc)
    ensures r.modelPath == RvcDir + rvc
    ensures r.indexPath == "" || r.indexPath == IndexFile(r.modelName)
    ensures r.indexPath != "" <==> IndexFile(r.modelName) in files && indexRate != 0.0
    ensures r.indexPath != "" ==> r.indexPath in files
  {
    var name := ModelName(rvc);
    Selection(name, ModelPath(rvc), IndexPath(name, indexRate, files))
  }

  /** A position holding `c` with no later `c` is the last one. */
  lemma LastIndexOfAt(s: string, c: char, i: int)
    requires 0 <= i < |s| && s[i] == c
    requires forall k :: i < k < |s| ==> s[k] != c
    ensures LastIndexOf(s, c) == i
  {
  }

  /** Cutting `s` after its last `c` keeps that position. */
  lemma LastIndexOfPrefix(s: string, c: char, n: int)
    requires LastIndexOf(s, c) < n <= |s|
    ensures LastIndexOf(s[..n], c) == LastIndexOf(s, c)
  {
    var i := LastIndexOf(s, c);
    if i >= 0 {
      LastIndexOfAt(s[..n], c, i);
    } else {
      LastIndexOfAbsent(s[..n], c);
    }
  }

  /** A character absent from `s` has no last position. */
  lemma LastIndexOfAbsent(s: string, c: char)
    requires forall k :: 0 <= k < |s| ==> s[k] != c
    ensures LastIndexOf(s, c) == -1
  {
  }

  /**
   * A file name without '/' whose stem holds a non-dot character splits at
   * the dot before its last extension: `splitext("singerA.pth") == ("singerA", ".pth")`.
   */
  lemma SplitExtOfStem(stem: string, ext: string)
    requires forall k :: 0 <= k < |stem| ==> stem[k] != '/'
    requires HasNonDot(stem, 0, |stem|)
    requires forall k :: 0 <= k < |ext| ==> ext[k] != '.' && ext[k] != '/'
    ensures SplitExt(stem + "." + ext) == (stem, "." + ext)
  {
    var p := stem + "." + ext;
    assert forall k :: 0 <= k < |p| ==> p[k] != '/' by {
      forall k | 0 <= k < |p| ensures p[k] != '/' {
        if k < |stem| { assert p[k] == stem[k]; }
        else if k > |stem| { assert p[k] == ext[k - |stem| - 1]; }
      }
    }
    LastIndexOfAbsent(p, '/');
    assert forall k :: |stem| < k < |p| ==> p[k] != '.' by {
      forall k | |stem| < k < |p| ensures p[k] != '.' {
        assert p[k] == ext[k - |stem| - 1];
      }
    }
    LastIndexOfAt(p, '.', |stem|);
    var j :| 0 <= j < |stem| && stem[j] != '.';
    assert p[j] == stem[j];
    assert HasNonDot(p, 0, |stem|);
    assert p[..|stem|] == stem;
    assert p[|stem|..] == "." + ext;
  }

  /**
   * A name that starts with dots and has no other dot and no '/' has no
   * extension: `splitext(".pth") == (".pth", "")`, `splitext("..pth") == ("..pth", "")`.
   */
  lemma SplitExtOfHidden(dots: string, rest: string)
    requires |dots| > 0 && forall k :: 0 <= k < |dots| ==> dots[k] == '.'
    requires forall k :: 0 <= k < |rest| ==> rest[k] != '.' && rest[k] != '/'
    ensures SplitExt(dots + rest) == (dots + rest, "")
  {
    var p := dots + rest;
    assert forall k :: 0 <= k < |p| ==> p[k] != '/' by {
      forall k | 0 <= k < |p| ensures p[k] != '/' {
        if k < |dots| { assert p[k] == dots[k]; } else { assert p[k] == rest[k - |dots|]; }
      }
    }
    LastIndexOfAbsent(p, '/');
    assert forall k :: |dots| - 1 < k < |p| ==> p[k] != '.' by {
      forall k | |dots| - 1 < k < |p| ensures p[k] != '.' {
        assert p[k] == rest[k - |dots|];
      }
    }
    assert p[|dots| - 1] == '.';
    LastIndexOfAt(p, '.', |dots| - 1);
    assert !HasNonDot(p, 0, |dots| - 1) by {
      forall k | 0 <= k < |dots| - 1 ensures p[k] == '.' { assert p[k] == dots[k]; }
    }
  }

  /**
   * For a model file `stem + ".pth"` as the catalog lists it, the cache key
   * is the stem, the weights path is under ./rvcs/, and the index path is
   * `./rvcs/<stem>.index` exactly when that file exists and the rate is not zero.
   */
  lemma SelectCatalogEntry(stem: string, indexRate: real, files: set<string>)
    requires forall k :: 0 <= k < |stem| ==> stem[k] != '/'
    requires HasNonDot(stem, 0, |stem|)
    ensures Select(stem + ".pth", indexRate, files) ==
      Selection(stem, "./rvcs/" + stem + ".pth",
                if "./rvcs/" + stem + ".index" in files && indexRate != 0.0
                then "./rvcs/" + stem + ".index" else "")
  {
    SplitExtOfStem(stem, "pth");
    assert stem + "." + "pth" == stem + ".pth";
    assert RvcDir + (stem + ".pth") == "./rvcs/" + stem + ".pth";
  }

  /**
   * Two catalog entries with ordinary stems never share a cache key: the
   * key determines the file.
   */
  lemma ModelNameInjectiveOnPth(stem1: string, stem2: string)
    requires forall k :: 0 <= k < |stem1| ==> stem1[k] != '/'
    requires forall k :: 0 <= k < |stem2| ==> stem2[k] != '/'
    requires HasNonDot(stem1, 0, |stem1|) && HasNonDot(stem2, 0, |stem2|)
    ensures ModelName(stem1 + ".pth") == ModelName(stem2 + ".pth") <==> stem1 == stem2
  {
    SplitExtOfStem(stem1, "pth");
    SplitExtOfStem(stem2, "pth");
    assert stem1 + "." + "pth" == stem1 + ".pth";
    assert stem2 + "." + "pth" == stem2 + ".pth";
  }

  /**
   * For any stem made only of dots, the model files `<dots>pth` and
   * `<dots>pth.pth` are different paths with the same cache key `<dots>pth`.
   */
  lemma HiddenNameCollision(dots: string)
    requires |dots| > 0 && forall k :: 0 <= k < |dots| ==> dots[k] == '.'
    ensures ModelName(dots + "pth") == ModelName(dots + "pth.pth") == dots + "pth"
    ensures ModelPath(dots + "pth") != ModelPath(dots + "pth.pth")
  {
    SplitExtOfHidden(dots, "pth");
    var stem := dots + "pth";
    assert HasNonDot(stem, 0, |stem|) by { assert stem[|dots|] == 'p'; }
    assert forall k :: 0 <= k < |stem| ==> stem[k] != '/' by {
      forall k | 0 <= k < |stem| ensures stem[k] != '/' {
        if k < |dots| { assert stem[k] == dots[k]; }
      }
    }
    SplitExtOfStem(stem, "pth");
    assert stem + "." + "pth" == dots + "pth.pth";
    assert |ModelPath(dots + "pth")| != |ModelPath(dots + "pth.pth")|;
  }
}
