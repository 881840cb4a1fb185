/** The exceptions the web core raises, and the 404 it signals. */
module Errors {

  datatype Error =
    | AttributeError       // attribute lookup on Dict2Obj or Context misses
    | KeyError             // dict subscription misses (NestedContext fallback, cast table)
    | TypeError            // NestedContext fallback through a link that is not a mapping
    | RecursionError       // NestedContext fallback with the link key itself gone
    | NotImplementedError  // any attribute assignment on Dict2Obj
    | ValueError           // int() of a capture that is not an integer literal
    | NotFound             // no router answered: HTTP 404 Not Found
}
