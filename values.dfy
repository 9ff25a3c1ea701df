/** Values shared by the conversion modules: the JavaScript argument as the
    validation sees it, the errors the conversions raise, and the result
    carriers that stand for "returns", "throws" and "warns". */
module Values {

  /** A year argument as the validation `typeof y === 'number' &&
      Number.isInteger(y)` sees it: an integer, or anything else (a string,
      a fractional number, NaN, null, undefined). */
  datatype JsValue = Integer(n: int) | NonInteger

  /** The calendar a year belongs to, named in error messages. */
  datatype Calendar = Javanese | Gregorian | Hijri

  /** The errors the core throws. */
  datatype Error =
    | InvalidYear(calendar: Calendar)
      // the Direct inverse gave up: its error grew beyond 1000 years
    | ConversionFailed(gregorianYear: int)
      // the facade's legacy lookup returned null
    | OutsideSupportedRange(calendar: Calendar, year: int)

  /** Either a value or a thrown error. */
  datatype Result<T> = Ok(value: T) | Err(error: Error)

  datatype Option<T> = None | Some(value: T)

  /** A result together with whether the call wrote an advisory warning
      (`console.warn`) before returning or throwing. */
  datatype Logged<T> = Logged(result: Result<T>, warned: bool)

  function CalendarName(c: Calendar): string
  {
    match c
    case Javanese => "Javanese"
    case Gregorian => "Gregorian"
    case Hijri => "Hijri"
  }

  /** The message of an InvalidYear error: it names the calendar whose year
      field was not an integer. */
  function InvalidYearMessage(c: Calendar): (m: string)
    ensures |m| > 8 + |CalendarName(c)|
    ensures m[..8] == "Invalid " && m[8..8 + |CalendarName(c)|] == CalendarName(c)
    ensures m[8 + |CalendarName(c)|..] == " year: must be an integer"
  {
    "Invalid " + CalendarName(c) + " year: must be an integer"
  }

  /** Different calendars give different messages. */
  lemma InvalidYearMessagesDiffer(c: Calendar, d: Calendar)
    requires c != d
    ensures InvalidYearMessage(c) != InvalidYearMessage(d)
  {
    var mc, md := InvalidYearMessage(c), InvalidYearMessage(d);
    assert mc[8] != md[8];
  }
}
