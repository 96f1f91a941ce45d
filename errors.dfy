/** The failures a transform can end in. Each one is a synchronous throw in
    the plugin; here it is the error half of a result. */
module Errors {

  datatype Error =
    | InvalidName(name: string)      // the configured `name` is not an identifier name
    | NotAnObject(raw: string)       // a block decoded to a non-object while no name is set
    | InvalidKey(key: string)        // a record key cannot become an exported binding
    | ParserThrew(message: string)   // a decoder threw; passed on unchanged

  datatype Result<T> = Ok(value: T) | Err(error: Error)
}
