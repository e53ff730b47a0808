/** Shared vocabulary of the cart model: identifiers, clock readings, Java's
    32-bit `int`, and the exceptions the cart code raises. */
module Common {

  /** A UUID issued by the store. The model draws it from a counter. */
  type Uuid = nat

  /** A reading of the injected clock. Each reading is later than the last. */
  type Time = nat

  const INT32_MIN: int := -0x8000_0000
  const INT32_MAX: int := 0x7FFF_FFFF

  /** Java's `int` (and the value of a non-null `Integer`). */
  type Int32 = x: int | INT32_MIN <= x <= INT32_MAX

  /** Java `int` arithmetic: the exact result, reduced two's-complement into
      32 bits. */
  function Wrap32(x: int): (r: Int32)
    ensures INT32_MIN <= x <= INT32_MAX ==> r == x
    ensures (x - r) % 0x1_0000_0000 == 0
  {
    var m := (x - INT32_MIN) % 0x1_0000_0000;
    assert x - (m + INT32_MIN) == 0x1_0000_0000 * ((x - INT32_MIN) / 0x1_0000_0000);
    m + INT32_MIN
  }

  datatype Option<T> = None | Some(value: T)

  /** The Java exception classes the core throws. */
  datatype Exception =
    | IllegalArgument           // java.lang.IllegalArgumentException
    | IllegalState              // java.lang.IllegalStateException
    | NullPointer               // java.lang.NullPointerException
    | OptimisticLockingFailure  // org.springframework.dao.OptimisticLockingFailureException

  /** Which failure an exception reports (its message, in the source). */
  datatype Reason =
    | QuantityNotPositive   // "Quantity must be greater than 0"
    | PriceNotPositive      // "Price must be greater than 0"
    | ProductIdRequired     // "Product ID is required"
    | ProductNameRequired   // "Product name is required"
    | CartNotFoundWithId    // "Cart not found with id: ..."
    | CartNotFoundForUser   // "Cart not found for user: ..."
    | ItemNotFound          // "Cart item not found with id: ..."
    | CartMissingAtSave     // "Cannot save items for non-existent cart: ..."
    | NullItemId            // dereferencing a line item whose id is null
    | WriteConflict         // SQLState 40001 from the store

  datatype Error = Error(exception: Exception, reason: Reason)

  datatype Result<T> = Ok(value: T) | Err(error: Error)

  datatype Outcome = Done | Fail(error: Error)

  /** Every non-empty finite set has an element on which `f` is least. */
  lemma {:induction false} LeastExists<T>(s: set<T>, f: T -> int)
    requires s != {}
    ensures exists m :: m in s && forall x :: x in s ==> f(m) <= f(x)
  {
    var y :| y in s;
    if s != {y} {
      LeastExists(s - {y}, f);
      var m :| m in s - {y} && forall x :: x in s - {y} ==> f(m) <= f(x);
      if f(y) < f(m) {
        assert forall x :: x in s ==> f(y) <= f(x);
      } else {
        assert forall x :: x in s ==> f(m) <= f(x);
      }
    } else {
      assert forall x :: x in s ==> x == y;
    }
  }
}
