/**
  The artifact listing behind `GET /outputs` (web/app.py): the names in the output directory
  that end in `.ply` or `.glb`, in listing order, each with its size and modification time.
*/
module Outputs {
  import opened Wrappers
  import Jobs

  /** Python's `str.endswith` for one suffix. */
  predicate EndsWith(s: string, suffix: string) {
    |suffix| <= |s| && s[|s| - |suffix|..] == suffix
  }

  /** `f.endswith(('.ply', '.glb'))`. */
  predicate IsOutputName(name: string) {
    EndsWith(name, ".ply") || EndsWith(name, ".glb")
  }

  /** One element of the JSON array: `name`, `size` and `modified`. */
  datatype FileInfo = FileInfo(name: string, size: nat, modified: string)

  /** The names of `names` that are artifacts, in their order. */
  function KeepOutputs(names: seq<string>): seq<string> {
    if names == [] then []
    else
      var last := names[|names| - 1];
      KeepOutputs(names[..|names| - 1]) + (if IsOutputName(last) then [last] else [])
  }

  /** A name is kept exactly when it is listed and is an artifact name. */
  lemma {:induction false} KeepOutputsMembers(names: seq<string>, n: string)
    ensures n in KeepOutputs(names) <==> n in names && IsOutputName(n)
    decreases |names|
  {
    if names != [] {
      var init := names[..|names| - 1];
      KeepOutputsMembers(init, n);
      assert names == init + [names[|names| - 1]];
    }
  }

  /** Filtering a listing in two pieces and joining the results is filtering the whole
      listing: the order of the listing is kept. */
  lemma {:induction false} KeepOutputsAppend(a: seq<string>, b: seq<string>)
    ensures KeepOutputs(a + b) == KeepOutputs(a) + KeepOutputs(b)
    decreases |b|
  {
    if b == [] {
      assert a + b == a;
    } else {
      var b' := b[..|b| - 1];
      assert (a + b)[..|a + b| - 1] == a + b';
      KeepOutputsAppend(a, b');
    }
  }

  /** A one-name listing is kept exactly when the name is an artifact name. */
  lemma KeepOutputsSingle(n: string)
    ensures KeepOutputs([n]) == if IsOutputName(n) then [n] else []
  {
    assert [n][..0] == [];
  }

  /** Every artifact name keeps all its occurrences and every other name loses them all. */
  lemma {:induction false} KeepOutputsCount(names: seq<string>, n: string)
    ensures multiset(KeepOutputs(names))[n] == if IsOutputName(n) then multiset(names)[n] else 0
    decreases |names|
  {
    if names != [] {
      var init := names[..|names| - 1];
      KeepOutputsCount(init, n);
      assert names == init + [names[|names| - 1]];
    }
  }

  /** The artifact a successful run records is one the listing shows. */
  lemma ArtifactIsListed(id: string)
    ensures IsOutputName(Jobs.OutputFileName(id))
  {
    var name := Jobs.OutputFileName(id);
    assert name[|name| - 4..] == ".ply";
  }

  /** `list_outputs`: `listing` is `os.listdir` of the output directory, or `None` when the
      directory does not exist; `size` and `modified` stand for `os.path.getsize` and the
      formatted `os.path.getmtime` of a listed name. */
  method ListOutputs(listing: Option<seq<string>>, size: string -> nat, modified: string -> string)
    returns (files: seq<FileInfo>)
    ensures listing.None? ==> files == []
    ensures listing.Some? ==>
      var kept := KeepOutputs(listing.value);
      |files| == |kept| && forall i :: 0 <= i < |files| ==> files[i] == FileInfo(kept[i], size(kept[i]), modified(kept[i]))
  {
    files := [];
    if listing.Some? {
      var names := listing.value;
      for i := 0 to |names|
        invariant var kept := KeepOutputs(names[..i]);
          |files| == |kept| && forall k :: 0 <= k < |files| ==> files[k] == FileInfo(kept[k], size(kept[k]), modified(kept[k]))
      {
        var f := names[i];
        assert names[..i + 1][..i] == names[..i];
        if IsOutputName(f) {
          files := files + [FileInfo(f, size(f), modified(f))];
        }
      }
      assert names[..|names|] == names;
    }
  }
}
