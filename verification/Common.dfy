/** Shared vocabulary. */
module Common {
  /** Wherever the runtime stores NULL / None. */
  datatype Option<+T> = None | Some(value: T)

  /** The status column of the approvals table. */
  datatype ApprovalStatus = Pending | Granted | Denied | Consumed

  predicate Distinct<T(==)>(s: seq<T>) {
    forall i, j :: 0 <= i < j < |s| ==> s[i] != s[j]
  }
}
