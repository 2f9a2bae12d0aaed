// The outcome of a policy check: a value, or the reason the request is refused.
module Policy {

  datatype Reason =
    | BadCharacters | EmptyProfile | UnknownProfile | FullCombined
    | LongMessage | BadTag
    | BadHost | BadPort | BadProtocol | BadInterface | BadTimeout
    | BadLimit
    | EmptyInventory | EmptyEntry | MissingEquals | BadName | EmptyAddress | BadAddress | DuplicateName

  datatype Verdict<+T> = Accepted(value: T) | Rejected(reason: Reason) {
    predicate IsFailure() {
      Rejected?
    }

    function PropagateFailure<U>(): (r: Verdict<U>)
      requires IsFailure()
    {
      Rejected(reason)
    }

    function Extract(): T
      requires !IsFailure()
    {
      value
    }
  }
}
