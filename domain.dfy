/** Values shared by the weather cache, the diary store and the service. */
module Domain {

  /** A calendar date as a day number; the order of LocalDate is the order of these numbers. */
  type Date = int

  /** A Java `double`, kept as its IEEE-754 bit pattern. The model does no arithmetic on it. */
  type Float64 = bv64

  /** One day's weather, a row of the `date_weather` table; `date` is its primary key. */
  datatype DateWeather = DateWeather(date: Date, weather: string, icon: string, temperature: Float64)

  /** A diary entry: its text and the weather attached to it when it was created. */
  datatype Diary = Diary(text: string, dateWeather: DateWeather) {
    /** The date the entry is filed under: the date of its attached weather. */
    function EntryDate(): Date {
      dateWeather.date
    }
  }

  /** The ways an operation of the service can fail. */
  datatype Error =
    | NetworkFailure     // getWeatherString throws IOException
    | MalformedPayload   // the response body is not JSON text (ParseException)
    | NullValue          // a missing key or JSON null is dereferenced (NullPointerException)
    | WrongType          // a value of the wrong JSON kind is cast (ClassCastException)
    | EmptyWeatherArray  // `weather` is an empty array (IndexOutOfBoundsException)
    | Unrendered         // a condition or icon value whose toString text is not modelled
    | NotFound           // updateDiary finds no entry for the date

  datatype Option<+T> = None | Some(value: T)

  /** A value, or the exception that ended the computation. */
  datatype Result<+T> = Ok(value: T) | Err(error: Error) {
    predicate IsFailure() {
      Err?
    }

    function PropagateFailure<U>(): Result<U>
      requires Err?
    {
      Err(error)
    }

    function Extract(): T
      requires Ok?
    {
      value
    }
  }

  /** How a state-changing operation ended: normally, or by throwing. */
  datatype Outcome = Done | Failed(error: Error)
}
