/** Option and Result, the model's stand-ins for Python's None and for raised exceptions. */
module Wrappers {

  datatype Option<+T> = None | Some(value: T)

  datatype Result<+T, +E> = Ok(value: T) | Err(error: E)
}

/** The exceptions the property manager raises, one constructor per distinct failure. */
module Errors {

  datatype Error =
      /** `IndexError` from `splitstring.pop(0)`: a PROPERTY line with no token left after the marker is removed. */
    | EmptyPropertyLine(line: string)
      /** `AttributeError` from dereferencing the `None` that leading non-PROPERTY lines put into the refreshed list. */
    | NoneEntry
      /** `EupropertyNotFoundException` from `get_euproperty_by_name`. */
    | NotFoundByName(name: string)
      /** The `Exception` raised when a search string does not pick out exactly one property to set. */
    | CouldNotFetch(search: string)
      /** `IndexError` from `[0]` in `reset_property_to_default`: the search string matches no property. */
    | NoSearchMatch(search: string)
      /** `IndexError` from `[0]` or `[2]`: the command printed no line, or a line with fewer than three tokens. */
    | MalformedResponse
      /** `EupropertiesException`: the modify command printed an empty line. */
    | EmptyResponse
      /** `EupropertiesException`: the value the modify command reports is not the one requested. */
    | ValueMismatch(requested: string, returned: string)
      /** `EupropertiesException`: `get_property_default_value` called without acknowledging the warning. */
    | WarningNotAcknowledged
}
