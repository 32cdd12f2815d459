/**
 * The failures the remote client raises, one constructor per exception
 * class. `Fatal` stands for a PHP `Error` (a call on a non-object, an
 * unknown class, a type error): unlike the others it is not an
 * `\Exception`, so `catch (\Exception $e)` does not intercept it.
 */
module Failures {
  import opened Php

  datatype Error =
    | InvalidArgument(message: string)          // \InvalidArgumentException
    | Runtime(message: string, code: int)       // \RuntimeException
    | ApiLimitExceed(limit: Value)              // ApiLimitExceedException
    | TwoFactorRequired(factor: string)         // TwoFactorAuthenticationRequiredException
    | BadRequest(message: string, code: int)    // \ErrorException
    | ValidationFailed(message: string, code: int)  // ValidationFailedException
    | ResponseCode(message: string)             // DrupalResponseCodeException
    | ResponseFailure(message: string)          // DrupalResponseException
    | BootstrapFailure(message: string)         // BootstrapException
    | Fatal(message: string)                    // a PHP Error

  /**
   * `$e->getMessage()`. The two exception classes that are built from a
   * value rather than a message pass that value on as their message.
   */
  function Message(e: Error): string
  {
    match e
    case InvalidArgument(m) => m
    case Runtime(m, _) => m
    case ApiLimitExceed(l) => StringOf(l)
    case TwoFactorRequired(f) => f
    case BadRequest(m, _) => m
    case ValidationFailed(m, _) => m
    case ResponseCode(m) => m
    case ResponseFailure(m) => m
    case BootstrapFailure(m) => m
    case Fatal(m) => m
  }

  /** Whether `catch (\Exception $e)` intercepts the failure. */
  predicate IsException(e: Error)
  {
    !e.Fatal?
  }
}
