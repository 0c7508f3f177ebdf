/** Providers as the load balancer sees them, and the error-carrying results its operations return. */
module Providers {

  /** A backend provider, known only by its object identity. The provider class hashes
      its random uid but defines no equality, so two references are equal exactly when
      they denote the same object; `identity` stands for that object. */
  datatype Provider = Provider(identity: nat)
}

module Results {

  /** A value, or the exception that was raised instead of returning it. */
  datatype Result<+T, +E> = Ok(value: T) | Err(error: E)

  /** Completion without a value, or the exception that was raised. */
  datatype Outcome<+E> = Pass | Fail(error: E)
}
