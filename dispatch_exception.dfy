/**
 * The exception `dispatch` throws (Dispatcher.php lines 56, 62, 66 and
 * 112-113), one constructor per throw site. `Message` and `Code` give what
 * `getMessage()` and `getCode()` return.
 */
module DispatchErrors {

  const BadRequest: int := 400
  const NotFound: int := 404

  datatype DispatchException =
    | ModuleNotFound(moduleName: string)
    | NotAModule(pathInfo: string)
    | MethodNotFound(pathInfo: string)
    | IllegalInvocation(pathInfo: string)
  {
    /** The HTTP status code: 404 for a missing module class, 400 for every other failure. */
    function Code(): (c: int)
      ensures c == NotFound <==> this.ModuleNotFound?
      ensures c == NotFound || c == BadRequest
    {
      if ModuleNotFound? then NotFound else BadRequest
    }

    /** The exception message, character for character. */
    function Message(): string
    {
      match this
      case ModuleNotFound(m) => "Module \"" + m + "\" not found"
      case NotAModule(p) => "Class is no module, PATH_INFO: " + p
      case MethodNotFound(p) => "Method not found, PATH_INFO: " + p
      case IllegalInvocation(p) => "Method is not public static or wrong parameter number, PATH_INFO: " + p
    }

    /** Every 400 message ends with the raw PATH_INFO; the 404 message names the module. */
    lemma MessageEnds()
      ensures !ModuleNotFound? ==>
                |pathInfo| <= |Message()| && Message()[|Message()| - |pathInfo|..] == pathInfo
      ensures ModuleNotFound? ==> moduleName <= Message()[8..]
    {
    }
  }
}
