/** The ensembling wrapper of utils/ensemble.py (`Ensembler`).

    A learner is opaque: its state has type `S`, a factory builds a state from
    a parameter record or fails (`model(**param)` raised, e.g. on an unknown
    keyword), fitting maps a state and the
    training data to a new state or fails (the learner's `fit` raised), and
    `predict_proba` maps a state and the test rows to one row of class
    probabilities per test row.  Probabilities are opaque values that are only
    copied. */
module Ensemble {
  import opened Wrappers

  /** The two assertions of the constructor. */
  datatype EnsembleError =
    | ArityMismatch   // line 18: as many parameter records as factories
    | TooFewModels    // line 19: at least two models
    | FactoryFailed(index: nat)   // line 23: building learner `index` raised

  /** Lines 18-19, in the source's order: the arity check runs first, so it is
      the one reported when both fail. */
  function CheckSizes(nModels: nat, nParams: nat): (r: Option<EnsembleError>)
    ensures r == None <==> nModels == nParams && nModels >= 2
    ensures nModels != nParams ==> r == Some(ArityMismatch)
    ensures nModels == nParams && nModels < 2 ==> r == Some(TooFewModels)
  {
    if nModels != nParams then Some(ArityMismatch)
    else if nModels <= 1 then Some(TooFewModels)
    else None
  }

  /** Lines 21-23: one learner per (factory, parameters) pair, in order; like
      `zip`, stops at the shorter list.  A factory that raises stops the loop:
      its index is returned, with the learners built before it. */
  method Instantiate<P, S>(factories: seq<P -> Option<S>>, params: seq<P>) returns (models: seq<S>, failed: Option<nat>)
    ensures failed.None? ==> |models| == if |factories| <= |params| then |factories| else |params|
    ensures failed.Some? ==> failed.value < |factories| && failed.value < |params|
    ensures failed.Some? ==> |models| == failed.value && factories[failed.value](params[failed.value]).None?
    ensures forall i :: 0 <= i < |models| ==> factories[i](params[i]) == Some(models[i])
  {
    var n := if |factories| <= |params| then |factories| else |params|;
    models := [];
    for i := 0 to n
      invariant |models| == i
      invariant forall k :: 0 <= k < i ==> factories[k](params[k]) == Some(models[k])
    {
      var m := factories[i](params[i]);
      if m.None? {
        return models, Some(i);
      }
      models := models + [m.value];
    }
    failed := None;
  }

  class Ensembler<S> {
    var models: seq<S>
    const savePath: Option<string>

    /** An ensemble holds at least two learners. */
    ghost predicate Valid()
      reads this
    {
      |models| >= 2
    }

    constructor (models: seq<S>, savePath: Option<string>)
      ensures this.models == models && this.savePath == savePath
    {
      this.models := models;
      this.savePath := savePath;
    }

    /** `__init__`: both size checks before any learner is built (a size
        error is reported whatever the factories would do), then the learners
        in input order, the first factory that raises ending construction;
        the save path is kept and nothing is saved. */
    static method Create<P>(factories: seq<P -> Option<S>>, params: seq<P>, savePath: Option<string>)
      returns (r: Result<Ensembler<S>, EnsembleError>)
      ensures CheckSizes(|factories|, |params|).Some? ==> r == Err(CheckSizes(|factories|, |params|).value)
      ensures CheckSizes(|factories|, |params|).None? ==>
        (r.Err? <==> exists i :: 0 <= i < |factories| && factories[i](params[i]).None?)
      ensures CheckSizes(|factories|, |params|).None? && r.Err? ==> r.error.FactoryFailed?
      ensures r.Err? && r.error.FactoryFailed? ==>
        var j := r.error.index;
        && j < |factories| && factories[j](params[j]).None?
        && forall i :: 0 <= i < j ==> factories[i](params[i]).Some?
      ensures r.Ok? ==> fresh(r.value) && r.value.Valid() && r.value.savePath == savePath
      ensures r.Ok? ==> |r.value.models| == |factories|
      ensures r.Ok? ==> forall i :: 0 <= i < |factories| ==> factories[i](params[i]) == Some(r.value.models[i])
    {
      var failure := CheckSizes(|factories|, |params|);
      if failure.Some? {
        return Err(failure.value);
      }
      var models, failed := Instantiate(factories, params);
      if failed.Some? {
        return Err(FactoryFailed(failed.value));
      }
      var e := new Ensembler(models, savePath);
      return Ok(e);
    }

    /** `fit`: every learner, in list order, on the same (x, y).  A learner
        whose fit raises stops the loop: its index is returned, the learners
        before it are fitted and it and those after it are left as they were. */
    method Fit<X, Y>(x: X, y: Y, fit: (S, X, Y) -> Option<S>) returns (failed: Option<nat>)
      requires Valid()
      modifies this
      ensures Valid() && |models| == |old(models)|
      ensures failed.None? ==> forall i :: 0 <= i < |models| ==>
        fit(old(models)[i], x, y).Some? && models[i] == fit(old(models)[i], x, y).value
      ensures failed.Some? ==> failed.value < |models| && fit(old(models)[failed.value], x, y).None?
      ensures failed.Some? ==> forall i :: 0 <= i < failed.value ==>
        fit(old(models)[i], x, y).Some? && models[i] == fit(old(models)[i], x, y).value
      ensures failed.Some? ==> models[failed.value..] == old(models)[failed.value..]
    {
      var i := 0;
      while i < |models|
        invariant 0 <= i <= |models| == |old(models)|
        invariant forall k :: 0 <= k < i ==>
          fit(old(models)[k], x, y).Some? && models[k] == fit(old(models)[k], x, y).value
        invariant models[i..] == old(models)[i..]
      {
        var next := fit(models[i], x, y);
        if next.None? {
          return Some(i);
        }
        models := models[i := next.value];
        i := i + 1;
      }
      return None;
    }

    /** `predict_proba`: a (number of learners) x (number of test rows) array
        whose row i is column 1 of learner i's class probabilities. */
    method PredictProba<R, T(0)>(xTest: seq<R>, proba: (S, seq<R>) -> seq<seq<T>>) returns (preds: array2<T>)
      // what a learner's `predict_proba` returns: one row per test row, with
      // (at least) a negative- and a positive-class column
      requires forall i :: 0 <= i < |models| ==> |proba(models[i], xTest)| == |xTest|
      requires forall i, j :: 0 <= i < |models| && 0 <= j < |xTest| ==> |proba(models[i], xTest)[j]| >= 2
      ensures fresh(preds) && preds.Length0 == |models| && preds.Length1 == |xTest|
      ensures forall i, j :: 0 <= i < |models| && 0 <= j < |xTest| ==> preds[i, j] == proba(models[i], xTest)[j][1]
    {
      preds := new T[|models|, |xTest|];
      for i := 0 to |models|
        invariant forall k, j :: 0 <= k < i && 0 <= j < |xTest| ==> preds[k, j] == proba(models[k], xTest)[j][1]
      {
        var out := proba(models[i], xTest);
        for j := 0 to |xTest|
          invariant forall k, l :: 0 <= k < i && 0 <= l < |xTest| ==> preds[k, l] == proba(models[k], xTest)[l][1]
          invariant forall l :: 0 <= l < j ==> preds[i, l] == out[l][1]
        {
          preds[i, j] := out[j][1];
        }
      }
    }
  }
}
