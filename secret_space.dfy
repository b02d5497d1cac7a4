/**
 * The `Secrets` class of qiflib: a set of secret labels with a prior
 * distribution, whose prior may be replaced after construction. Raised
 * exceptions become returned errors; the stored state is a `State` of
 * module SecretsSpec, and every method is proved against the function there.
 */
module SecretSpace {
  import opened Wrappers
  import opened PyTypes
  import opened Probability
  import opened SecretsSpec

  class Secrets<L> {
    var labels: seq<L>
    var numSecrets: nat
    var prior: seq<real>

    /** The stored state as a value. */
    function Model(): State<L>
      reads this
    {
      State(labels, numSecrets, prior)
    }

    /** The class invariant every public operation keeps. */
    predicate Valid()
      reads this
    {
      ValidState(Model())
    }

    /** The field assignments of `__init__` that precede the distribution check: a copy of the labels and their count. */
    constructor WithLabels(secrets: seq<L>)
      ensures labels == secrets && numSecrets == |secrets| && prior == []
    {
      labels := secrets;
      numSecrets := |secrets|;
      prior := [];
    }

    /**
     * `Secrets(secrets, prior)`: checks types, then sizes, stores the labels and
     * their count, checks the distribution and stores the prior. On any failure
     * no object reaches the caller.
     */
    static method New(secrets: Arg<L>, prior: Arg<real>) returns (r: Result<Secrets<L>, Error>)
      ensures r.Success? <==> Construct(secrets, prior).Success?
      ensures r.Failure? ==> Construct(secrets, prior) == Failure(r.error)
      ensures r.Success? ==> fresh(r.value) && r.value.Valid()
      ensures r.Success? ==> Construct(secrets, prior) == Success(r.value.Model())
    {
      var typeError := CheckTypes(secrets, prior);
      if typeError.Some? {
        return Failure(typeError.value);
      }
      var sizeError := CheckSizes(secrets.items, prior.items);
      if sizeError.Some? {
        return Failure(sizeError.value);
      }
      var s := new Secrets.WithLabels(secrets.items);
      if !IsDistribution(prior.items) {
        return Failure(NotDistribution);
      }
      s.prior := ToArray(prior);
      return Success(s);
    }

    /**
     * `update_prior(newPrior)`: every check runs before the one assignment, so
     * a failed update leaves the object exactly as it was.
     */
    method UpdatePrior(newPrior: Arg<real>) returns (err: Option<Error>)
      requires Valid()
      modifies this`prior
      ensures Valid()
      ensures labels == old(labels) && numSecrets == old(numSecrets)
      ensures err.Some? ==> prior == old(prior)
      ensures err.None? ==> !newPrior.Other? && prior == newPrior.items
      ensures UpdatedPrior(old(Model()), newPrior) ==
                (if err.None? then Success(Model()) else Failure(err.value))
      ensures Model() == StateAfterUpdate(old(Model()), newPrior)
    {
      if !IsList(newPrior) && !IsNumpyArray(newPrior) {
        return Some(PriorNotListOrArray);
      }
      if Len(newPrior) != numSecrets {
        return Some(PriorSizeMismatch);
      }
      if !IsDistribution(newPrior.items) {
        return Some(NotDistribution);
      }
      prior := ToArray(newPrior);
      return None;
    }
  }

  /**
   * The stored labels are a copy: a caller that builds a secret space from its
   * own list and then overwrites an element of that list does not change the
   * labels the secret space holds.
   */
  method CallerEditAfterConstruction<L>(callerList: array<L>, prior: Arg<real>, x: L)
    returns (r: Result<Secrets<L>, Error>)
    requires callerList.Length > 0
    modifies callerList
    ensures callerList[0] == x
    ensures r.Success? <==> Construct(List(old(callerList[..])), prior).Success?
    ensures r.Success? ==> r.value.labels == old(callerList[..]) && r.value.Valid()
  {
    r := Secrets.New(List(callerList[..]), prior);
    callerList[0] := x;
  }
}
