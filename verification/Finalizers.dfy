/**
 Adding and removing one finalizer on an object's metadata
 (pkg/controller/finalizers.go). A nil finalizer list and an empty one behave alike.
 */
module Finalizers {

  /** The list with `f` present: unchanged when it is already there, appended otherwise. */
  function With(fs: seq<string>, f: string): seq<string> {
    if f in fs then fs else fs + [f]
  }

  /** The list without any occurrence of `f`, the others in their order. */
  function Without(fs: seq<string>, f: string): seq<string> {
    if fs == [] then []
    else if fs[0] == f then Without(fs[1..], f)
    else [fs[0]] + Without(fs[1..], f)
  }

  /** Removal keeps every other finalizer as often as it was there, and nothing else. */
  lemma {:induction false} WithoutKeepsTheOthers(fs: seq<string>, f: string, g: string)
    ensures multiset(Without(fs, f))[g] == if g == f then 0 else multiset(fs)[g]
  {
    if fs != [] {
      assert fs == [fs[0]] + fs[1..];
      WithoutKeepsTheOthers(fs[1..], f, g);
    }
  }

  lemma WithoutMembers(fs: seq<string>, f: string)
    ensures forall g :: g in Without(fs, f) <==> g in fs && g != f
  {
    forall g
      ensures g in Without(fs, f) <==> g in fs && g != f
    {
      WithoutKeepsTheOthers(fs, f, g);
      assert g in fs <==> g in multiset(fs);
      assert g in Without(fs, f) <==> g in multiset(Without(fs, f));
    }
  }

  lemma {:induction false} WithoutLength(fs: seq<string>, f: string)
    ensures |Without(fs, f)| <= |fs|
    ensures |Without(fs, f)| == |fs| <==> f !in fs
    ensures f !in fs ==> Without(fs, f) == fs
  {
    if fs != [] {
      WithoutLength(fs[1..], f);
      assert fs == [fs[0]] + fs[1..];
    }
  }

  lemma {:induction false} WithoutAppend(fs: seq<string>, f: string, g: string)
    ensures Without(fs + [g], f) == Without(fs, f) + (if g == f then [] else [g])
  {
    if fs != [] {
      WithoutAppend(fs[1..], f, g);
      assert (fs + [g])[1..] == fs[1..] + [g];
    }
  }

  /** Adding the finalizer and taking it away again gives back the original list. */
  lemma RemoveUndoesEnsure(fs: seq<string>, f: string)
    requires f !in fs
    ensures f in With(fs, f)
    ensures Without(With(fs, f), f) == fs
  {
    WithoutAppend(fs, f, f);
    WithoutLength(fs, f);
  }

  /** The finalizer is there once it was added, and adding it again changes nothing. */
  lemma EnsureTwiceIsOnce(fs: seq<string>, f: string)
    ensures f in With(fs, f) && With(With(fs, f), f) == With(fs, f)
    ensures f in fs ==> With(fs, f) == fs
  {
  }

  class ObjectMeta {
    var finalizers: seq<string>

    constructor (fs: seq<string>)
      ensures finalizers == fs
    {
      finalizers := fs;
    }

    method EnsureFinalizer(f: string) returns (changed: bool)
      modifies this
      ensures finalizers == With(old(finalizers), f)
      ensures changed <==> f !in old(finalizers)
    {
      if f in finalizers {
        return false;
      }
      finalizers := finalizers + [f];
      return true;
    }

    method RemoveFinalizer(f: string) returns (changed: bool)
      modifies this
      ensures finalizers == Without(old(finalizers), f)
      ensures changed <==> f in old(finalizers)
    {
      var kept: seq<string> := [];
      for i := 0 to |finalizers|
        invariant finalizers == old(finalizers)
        invariant kept == Without(finalizers[..i], f)
      {
        WithoutAppend(finalizers[..i], f, finalizers[i]);
        assert finalizers[..i + 1] == finalizers[..i] + [finalizers[i]];
        if finalizers[i] != f {
          kept := kept + [finalizers[i]];
        }
      }
      assert finalizers[..|finalizers|] == finalizers;
      WithoutLength(finalizers, f);
      if |kept| == |finalizers| {
        return false;
      }
      finalizers := kept;
      return true;
    }
  }
}
