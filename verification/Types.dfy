/** Identities and the optional value shared by every component of the model. */
module Types {
  type ThreadId(==, !new)

  type DeliveryId(==, !new)

  type TurnId(==, !new)

  datatype Option<+T> = None | Some(value: T)
}
