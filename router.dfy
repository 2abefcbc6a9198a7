/** The backend router (`app/backends/router.py`): backends by name in
    registration order, and a prefix table from model-name prefixes to
    backend names. */
module Router {
  import opened Wrappers
  import Strings

  /** A registered backend: its name and what its `list_models` returns. */
  datatype Backend = Backend(name: string, models: seq<string>)

  /** `p` is a registered prefix of `model` and no registered prefix of
      `model` is longer. */
  predicate IsLongestMatch(prefixes: set<string>, model: string, p: string) {
    p in prefixes && p <= model && forall q :: q in prefixes && q <= model ==> |q| <= |p|
  }

  /** Every backend's models, in the given order of names. */
  function AllModels(names: seq<string>, backends: map<string, Backend>): seq<string>
    requires forall n :: n in names ==> n in backends
  {
    if names == [] then [] else backends[names[0]].models + AllModels(names[1..], backends)
  }

  lemma AllModelsStep(names: seq<string>, backends: map<string, Backend>, k: nat)
    requires k < |names| && forall n :: n in names ==> n in backends
    ensures AllModels(names[k..], backends) == backends[names[k]].models + AllModels(names[k + 1..], backends)
  {
    assert names[k..][1..] == names[k + 1..];
  }

  class BackendRouter {
    /** Registered names, in first-registration order (a dict's key order). */
    var names: seq<string>
    var backends: map<string, Backend>
    var prefixMap: map<string, string>

    ghost predicate Valid()
      reads this
    {
      && (forall i, j :: 0 <= i < j < |names| ==> names[i] != names[j])
      && (forall n :: n in names <==> n in backends)
      && (forall p :: p in prefixMap ==> prefixMap[p] in backends)
    }

    constructor ()
      ensures Valid() && names == [] && backends == map[] && prefixMap == map[]
    {
      names, backends, prefixMap := [], map[], map[];
    }

    /** `register`: the backend is stored under its name (keeping the name's
        place if it was there) and each prefix now points to it. */
    method Register(backend: Backend, prefixes: seq<string>)
      requires Valid()
      modifies this
      ensures Valid()
      ensures backends == old(backends)[backend.name := backend]
      ensures names == if backend.name in old(names) then old(names) else old(names) + [backend.name]
      ensures prefixMap == Assign(old(prefixMap), prefixes, backend.name)
    {
      backends := backends[backend.name := backend];
      if backend.name !in names {
        names := names + [backend.name];
      }
      var updated := PointPrefixes(prefixMap, prefixes, backend.name);
      AssignShape(prefixMap, prefixes, backend.name);
      prefixMap := updated;
    }

    /** `get_backend`: the backend of the longest registered prefix of the
        model name, or nothing when no prefix matches. */
    method GetBackend(model: string) returns (backend: Option<Backend>)
      requires Valid()
      ensures backend.None? <==> forall p :: p in prefixMap ==> !(p <= model)
      ensures backend.Some? ==> exists p :: IsLongestMatch(prefixMap.Keys, model, p)
                                        && backend == Some(backends[prefixMap[p]])
    {
      var best: Option<string> := None;
      var remaining := prefixMap.Keys;
      ghost var seen: set<string> := {};
      while remaining != {}
        invariant seen + remaining == prefixMap.Keys
        invariant best.None? ==> forall q :: q in seen ==> !(q <= model)
        invariant best.Some? ==> IsLongestMatch(seen, model, best.value)
        decreases remaining
      {
        var p :| p in remaining;
        if p <= model && (best.None? || |p| > |best.value|) {
          best := Some(p);
        }
        remaining := remaining - {p};
        seen := seen + {p};
      }
      if best.None? {
        return None;
      }
      backend := Some(backends[prefixMap[best.value]]);
    }

    /** `get_backend_by_name`. */
    function BackendByName(name: string): (backend: Option<Backend>)
      reads this
      ensures backend.Some? <==> name in backends
      ensures backend.Some? ==> backend.value == backends[name]
    {
      if name in backends then Some(backends[name]) else None
    }

    /** `list_all_models`. */
    method ListAllModels() returns (models: seq<string>)
      requires Valid()
      ensures models == AllModels(names, backends)
    {
      models := [];
      var k := 0;
      while k < |names|
        invariant 0 <= k <= |names|
        invariant models + AllModels(names[k..], backends) == AllModels(names, backends)
      {
        AllModelsStep(names, backends, k);
        Strings.ConcatAssoc(models, backends[names[k]].models, AllModels(names[k + 1..], backends));
        models := models + backends[names[k]].models;
        k := k + 1;
      }
    }
  }

  /** The prefix table after pointing each of `prefixes`, in order, at
      `name`. */
  function Assign(m: map<string, string>, prefixes: seq<string>, name: string): map<string, string> {
    if prefixes == [] then m
    else Assign(m, prefixes[..|prefixes| - 1], name)[prefixes[|prefixes| - 1] := name]
  }

  /** The loop of `register` over its prefixes. */
  method PointPrefixes(m: map<string, string>, prefixes: seq<string>, name: string)
    returns (r: map<string, string>)
    ensures r == Assign(m, prefixes, name)
  {
    r := m;
    var k := 0;
    while k < |prefixes|
      invariant 0 <= k <= |prefixes|
      invariant r == Assign(m, prefixes[..k], name)
    {
      assert prefixes[..k + 1][..k] == prefixes[..k];
      r := r[prefixes[k] := name];
      k := k + 1;
    }
    assert prefixes[..k] == prefixes;
  }

  /** Registering adds exactly the given prefixes, points each of them at
      the backend, and leaves every other prefix as it was. */
  lemma {:induction false} AssignShape(m: map<string, string>, prefixes: seq<string>, name: string)
    ensures Assign(m, prefixes, name).Keys == m.Keys + (set p | p in prefixes)
    ensures forall p :: p in prefixes ==> Assign(m, prefixes, name)[p] == name
    ensures forall p :: p in m && p !in prefixes ==> Assign(m, prefixes, name)[p] == m[p]
    decreases |prefixes|
  {
    if prefixes != [] {
      var init := prefixes[..|prefixes| - 1];
      AssignShape(m, init, name);
      assert forall p :: p in prefixes <==> p in init || p == prefixes[|prefixes| - 1];
    }
  }

  /** Two longest matches are the same prefix: equal-length prefixes of one
      name are equal, so the order among same-length prefixes never
      matters. */
  lemma LongestMatchUnique(prefixes: set<string>, model: string, p: string, q: string)
    requires IsLongestMatch(prefixes, model, p) && IsLongestMatch(prefixes, model, q)
    ensures p == q
  {
    assert |p| == |q|;
    assert p == model[..|p|] && q == model[..|q|];
  }

  /** Whenever some registered prefix matches, a longest one exists, so
      `get_backend` finds a backend exactly when a prefix matches. */
  lemma {:induction false} LongestMatchExists(prefixes: set<string>, model: string, p: string)
    requires p in prefixes && p <= model
    ensures exists r :: IsLongestMatch(prefixes, model, r)
    decreases |model| - |p|
  {
    if !IsLongestMatch(prefixes, model, p) {
      var q :| q in prefixes && q <= model && |q| > |p|;
      LongestMatchExists(prefixes, model, q);
    }
  }

  /** The models of every backend, one backend after another. */
  lemma {:induction false} AllModelsAppend(a: seq<string>, b: seq<string>, backends: map<string, Backend>)
    requires forall n :: n in a + b ==> n in backends
    ensures AllModels(a + b, backends) == AllModels(a, backends) + AllModels(b, backends)
    decreases |a|
  {
    if a == [] {
      assert a + b == b;
    } else {
      assert (a + b)[1..] == a[1..] + b;
      AllModelsAppend(a[1..], b, backends);
    }
  }
}
