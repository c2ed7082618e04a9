/** The errors the pipeline can return. Go returns them as plain `error`
    values; here each origin is its own constructor. */
module Errors {
  import opened Strconv
  import opened Types

  datatype Error =
    | TokenError(msg: string)                           // the XML tokenizer failed ("decoding token")
    | ElementError(element: string, cause: DecodeError) // an `<update>` did not decode ("decoding element")
    | DateError(value: string, reason: NumError)        // a Unix-timestamp option is not an int64 ("failed parsing date")
    | LayoutError(msg: string)                          // `time.Parse` rejected a formatted date
    | PackagesError(path: string, msg: string)          // the allow-list file could not be opened or scanned
    | CreateError(path: string, msg: string)            // `os.Create` of the output file failed
    | TemplateError(path: string, msg: string)          // `template.ParseFiles` failed
    | WriteError(msg: string)                           // executing a template section or writing JSON failed
    | MarshalError(msg: string)                         // `json.MarshalIndent` rejected the updates
    | CloseError(msg: string)                           // closing the output file or the input file failed
    | OpenError(path: string, msg: string)              // `os.Open` of the input XML file failed
}
