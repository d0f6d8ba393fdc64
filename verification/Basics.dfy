// Vocabulary shared by the other modules: optional values, results that carry
// an error, the octet type and the access types of a UE.

module Basics {

  datatype Option<+T> = None | Some(value: T)

  datatype Result<+T, +E> = Ok(value: T) | Err(error: E)

  type Byte = x: int | 0 <= x < 0x100

  // models.AccessType
  datatype AccessType = ThreeGpp | NonThreeGpp

  function Other(an: AccessType): AccessType {
    match an case ThreeGpp => NonThreeGpp case NonThreeGpp => ThreeGpp
  }

  // Range over a map visits its keys in an order of its own choosing.
  method AnyOf<T>(s: set<T>) returns (x: T)
    requires s != {}
    ensures x in s
  {
    x :| x in s;
  }
}
