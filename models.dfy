/** The two persisted records. Storage timestamps are not modelled. */
module Models {
  /** A row of the `users` table: storage-assigned id, email and the issued token. */
  datatype User = User(id: nat, email: string, token: string)

  /** Storage assigns ids in increasing order, so no two rows share one. */
  predicate IncreasingIds(users: seq<User>) {
    forall i, j :: 0 <= i < j < |users| ==> users[i].id < users[j].id
  }

  /** A message row; `owner` is the id of the user it belongs to. */
  datatype Message = Message(id: nat, title: string, body: string, owner: nat)
}
