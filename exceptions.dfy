/**
 * The failures the wrapper's constructors can raise: the two validation errors
 * built by `BpJpaExceptionFactory` and a provider exception passed through
 * unchanged.
 */
module Exceptions {
  import Provider

  datatype Err =
    | CannotBeNull(param: string)     // `BpJpaExceptionFactory.cannotBeNull(param)`
    | CannotBeEmpty(param: string)    // `BpJpaExceptionFactory.cannotBeEmpty(param)`
    | ProviderFailure(cause: Provider.RuntimeException)  // rethrown as caught
}
