/** Failure values shared by every module of the model.

    The analyzer reports failures as Python exceptions.  The model gives each
    cause its own constructor, carrying the offending value the message
    quotes, and maps every cause to the exception class it is raised with. */
module Errors {

  datatype Option<+T> = None | Some(value: T)

  /** The Python exception classes the core raises.  `LibraryError` stands
      for the street-graph library's own exception classes (networkx's
      `NetworkXNoPath`, for one), which the model does not tell apart. */
  datatype ExceptionClass = ValueError | RuntimeError | TypeError | KeyError | IndexError | LibraryError

  datatype Error =
    | InvalidScanStatus(scanStatus: string)         // unknown Amazon scan status
    | InvalidStopType(stopType: string)             // unknown Amazon stop type
    | InvalidTimeWindow                             // stop time window starts after it ends
    | InvalidLocationType(locationType: string)     // stop location type outside the vocabulary
    | InvalidPackageStatus(status: string)          // package status outside the vocabulary
    | InvalidMode(mode: string)                     // unknown distance mode
    | NotTuple                                      // osmnx provider given a non-tuple point
    | OsmCode(code: string)                         // OSM routing answered with a code other than "Ok"
    | GmapsHttpStatus(statusCode: int)              // directions API answered with an HTTP status other than 200
    | GmapsStatus(status: string)                   // directions API answered with a status other than "OK"
    | GraphFailure(reason: string)                  // the street-graph provider could not produce a path
    | RouteNotFound(code: string)                   // OSM routing failure in the table-filling script
    | MissingKey(key: string)                       // dictionary lookup of an absent key
    | IndexOutOfRange                               // sequence indexed past its end
    | NotAnInteger(text: string)                    // int() of a text that is not an integer
    | NotAFloat(text: string)                       // float() of a text that is not a number
    | FloatFormatOfText(text: string)               // a text formatted with a float format code
  {
    /** The exception class the source raises for this cause. */
    function Class(): ExceptionClass {
      match this
      case InvalidScanStatus(_) => ValueError
      case InvalidStopType(_) => ValueError
      case InvalidTimeWindow => ValueError
      case InvalidLocationType(_) => ValueError
      case InvalidPackageStatus(_) => ValueError
      case InvalidMode(_) => ValueError
      case NotTuple => TypeError
      case OsmCode(_) => RuntimeError
      case GmapsHttpStatus(_) => RuntimeError
      case GmapsStatus(_) => RuntimeError
      case GraphFailure(_) => LibraryError
      case RouteNotFound(_) => ValueError
      case MissingKey(_) => KeyError
      case IndexOutOfRange => IndexError
      case NotAnInteger(_) => ValueError
      case NotAFloat(_) => ValueError
      case FloatFormatOfText(_) => ValueError
    }
  }

  /** Either the value a call returns or the exception it raises. */
  datatype Result<+T> = Ok(value: T) | Err(error: Error)
}
