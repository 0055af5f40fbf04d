// A Java exception as the daemon reports it: the class's binary name and the
// message. `Describe` is `Throwable.toString`, which is what a wrapping
// exception carries as its message.
module JavaExceptions {
  datatype JavaException = JavaException(className: string, message: string)

  function IllegalArgument(message: string): JavaException
  {
    JavaException("java.lang.IllegalArgumentException", message)
  }

  function IoException(message: string): JavaException
  {
    JavaException("java.io.IOException", message)
  }

  /** `Throwable.toString()`: the class name, a colon and the message. */
  function Describe(e: JavaException): string
  {
    e.className + ": " + e.message
  }

  /** `new CompletionException(cause)`, as thrown by a task that failed inside `supplyAsync`. */
  function Completion(cause: JavaException): JavaException
  {
    JavaException("java.util.concurrent.CompletionException", Describe(cause))
  }
}
