/**
 * The voice catalog refreshed by `get_rvc_voices` (app.py:53-58): the voice
 * samples are the `./voices` listing as it is, the conversion models are the
 * `./rvcs` listing filtered to names ending in ".pth". The listings come from
 * `os.listdir` and are parameters here.
 */
module Catalog {

  /** `s.endswith(suffix)`. */
  predicate EndsWith(s: string, suffix: string)
  {
    |suffix| <= |s| && s[|s| - |suffix|..] == suffix
  }

  predicate IsModelFile(name: string)
  {
    EndsWith(name, ".pth")
  }

  /** `list(filter(lambda x: x.endswith(".pth"), names))` (app.py:57). */
  function FilterPth(names: seq<string>): (r: seq<string>)
    ensures |r| <= |names|
    ensures forall x :: x in r <==> x in names && IsModelFile(x)
    ensures forall x :: multiset(r)[x] == if IsModelFile(x) then multiset(names)[x] else 0
  {
    if names == [] then []
    else
      assert names == [names[0]] + names[1..];
      (if IsModelFile(names[0]) then [names[0]] else []) + FilterPth(names[1..])
  }

  /** `r` is `s` with some elements left out and the rest in their order. */
  ghost predicate SubsequenceOf<T>(r: seq<T>, s: seq<T>)
  {
    if r == [] then true
    else if s == [] then false
    else if r[0] == s[0] then SubsequenceOf(r[1..], s[1..])
    else SubsequenceOf(r, s[1..])
  }

  /** The filter keeps the listing's order. */
  lemma {:induction false} FilterPthKeepsOrder(names: seq<string>)
    ensures SubsequenceOf(FilterPth(names), names)
  {
    if names != [] {
      FilterPthKeepsOrder(names[1..]);
      var r, rest := FilterPth(names), FilterPth(names[1..]);
      if IsModelFile(names[0]) {
        assert r == [names[0]] + rest;
        assert r[0] == names[0] && r[1..] == rest;
      } else {
        assert r == rest;
        if rest != [] {
          assert rest[0] in rest;
          assert r[0] != names[0];
        }
      }
    }
  }

  /** Filtering a listing in two parts is filtering each part. */
  lemma {:induction false} FilterPthAppend(a: seq<string>, b: seq<string>)
    ensures FilterPth(a + b) == FilterPth(a) + FilterPth(b)
  {
    if a == [] {
      assert a + b == b;
    } else {
      assert (a + b)[0] == a[0];
      assert (a + b)[1..] == a[1..] + b;
      FilterPthAppend(a[1..], b);
    }
  }

  /** A listing that is already all model files passes unchanged, so filtering twice is filtering once. */
  lemma {:induction false} FilterPthIdempotent(names: seq<string>)
    ensures FilterPth(FilterPth(names)) == FilterPth(names)
  {
    if names != [] {
      FilterPthIdempotent(names[1..]);
      var r, rest := FilterPth(names), FilterPth(names[1..]);
      if IsModelFile(names[0]) {
        assert r == [names[0]] + rest;
        assert r[0] == names[0] && r[1..] == rest;
        assert FilterPth(r) == [names[0]] + FilterPth(rest);
      } else {
        assert r == rest;
      }
    }
  }

  /** The module-level lists `voices` and `rvcs` that `get_rvc_voices` reassigns. */
  class VoiceCatalog {
    var voices: seq<string>
    var rvcs: seq<string>

    /** Both lists start empty (app.py:49-50). */
    constructor ()
      ensures voices == [] && rvcs == []
    {
      voices := [];
      rvcs := [];
    }

    /**
     * `get_rvc_voices()`: reassigns both lists from the two directory
     * listings and returns `[rvcs, voices]`.
     */
    method Refresh(voiceListing: seq<string>, rvcListing: seq<string>)
      returns (rvcsOut: seq<string>, voicesOut: seq<string>)
      modifies this
      ensures voices == voiceListing
      ensures rvcs == FilterPth(rvcListing)
      ensures forall x :: x in rvcs <==> x in rvcListing && IsModelFile(x)
      ensures rvcsOut == rvcs && voicesOut == voices
    {
      voices := voiceListing;
      rvcs := FilterPth(rvcListing);
      rvcsOut, voicesOut := rvcs, voices;
    }
  }

  /** Empty directories give two empty lists; a listing keeps exactly its ".pth" entries. */
  method CatalogClient()
  {
    var c := new VoiceCatalog();
    var r, v := c.Refresh([], []);
    assert r == [] && v == [];
    r, v := c.Refresh(["alice.wav"], ["singerA.pth", "singerA.index"]);
    assert IsModelFile("singerA.pth");
    assert !IsModelFile("singerA.index");
    assert r == ["singerA.pth"] && v == ["alice.wav"];
  }
}
