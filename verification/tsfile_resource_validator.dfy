/** Resource-only validation of TsFile resources for compaction: one resource is valid
    when it is complete and its resource description is correct, a list is
    valid when every element is, and overlap checking is delegated.

    The checks of `TsFileResourceUtils` are not part of this model; they
    are kept as uninterpreted predicates, passed in as a `Utils` value. */
module TsFileResourceValidator {

  /** The three checks of `TsFileResourceUtils` over resources of type `R`. */
  datatype Utils<-R> = Utils(
    isComplete: R -> bool,
    isCorrect: R -> bool,
    hasNoOverlap: seq<R> -> bool)

  /** The individual checks, in the order `validateTsFile` may consult them. */
  datatype Check = Completeness | Correctness

  /** Verdict of `validateTsFile` together with the checks it consulted. */
  datatype Verdict = Verdict(ok: bool, consulted: seq<Check>)

  /** `validateTsFile`: completeness, then (only if that passed) correctness. */
  function ValidateTsFile<R>(utils: Utils<R>, resource: R): (v: Verdict)
    ensures v.ok <==> utils.isComplete(resource) && utils.isCorrect(resource)
    ensures |v.consulted| >= 1 && v.consulted[0] == Completeness
    ensures Correctness in v.consulted <==> utils.isComplete(resource)
    ensures !utils.isComplete(resource) ==> !v.ok && v.consulted == [Completeness]
  {
    if utils.isComplete(resource) then
      Verdict(utils.isCorrect(resource), [Completeness, Correctness])
    else
      Verdict(false, [Completeness])
  }

  /** Validity of one resource, whichever checks were consulted. */
  predicate IsValid<R>(utils: Utils<R>, resource: R) {
    ValidateTsFile(utils, resource).ok
  }

  /** Reference definition: every resource of the list is valid. */
  predicate AllValid<R>(utils: Utils<R>, resources: seq<R>)
    decreases |resources|
  {
    resources == [] || (IsValid(utils, resources[0]) && AllValid(utils, resources[1..]))
  }

  /** `AllValid` is the universally quantified statement. */
  lemma {:induction false} AllValidMeansEvery<R>(utils: Utils<R>, resources: seq<R>)
    ensures AllValid(utils, resources) <==> forall i :: 0 <= i < |resources| ==> IsValid(utils, resources[i])
    decreases |resources|
  {
    if resources != [] {
      AllValidMeansEvery(utils, resources[1..]);
      assert forall i :: 1 <= i < |resources| ==> resources[i] == resources[1..][i - 1];
    }
  }

  /** Validating a concatenation is validating both parts. */
  lemma {:induction false} AllValidAppend<R>(utils: Utils<R>, a: seq<R>, b: seq<R>)
    ensures AllValid(utils, a + b) <==> AllValid(utils, a) && AllValid(utils, b)
    decreases |a|
  {
    if a != [] {
      AllValidAppend(utils, a[1..], b);
      assert (a + b)[1..] == a[1..] + b;
    } else {
      assert a + b == b;
    }
  }

  /** `validateTsFiles`: checks the resources in order and stops at the
      first invalid one. `examined` is the number of resources handed to
      `validateTsFile`. */
  method ValidateTsFiles<R>(utils: Utils<R>, resources: seq<R>) returns (ok: bool, examined: nat)
    ensures ok <==> forall i :: 0 <= i < |resources| ==> IsValid(utils, resources[i])
    ensures ok <==> AllValid(utils, resources)
    ensures resources == [] ==> ok
    ensures ok ==> examined == |resources|
    ensures !ok ==>
      && 1 <= examined <= |resources|
      && !IsValid(utils, resources[examined - 1])
      && forall i :: 0 <= i < examined - 1 ==> IsValid(utils, resources[i])
  {
    AllValidMeansEvery(utils, resources);
    examined := 0;
    while examined < |resources|
      invariant 0 <= examined <= |resources|
      invariant forall i :: 0 <= i < examined ==> IsValid(utils, resources[i])
    {
      var verdict := ValidateTsFile(utils, resources[examined]);
      examined := examined + 1;
      if !verdict.ok {
        return false, examined;
      }
    }
    return true, examined;
  }

  /** `validateTsFilesIsHasNoOverlap`: the overlap check's answer on the
      whole list, unchanged. */
  function ValidateTsFilesIsHasNoOverlap<R>(utils: Utils<R>, resources: seq<R>): (ok: bool)
    ensures ok <==> utils.hasNoOverlap(resources)
  {
    utils.hasNoOverlap(resources)
  }
}
