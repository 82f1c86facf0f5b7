/** The record the services hand to the activity (vandy.mooc.aidl.WeatherData). */
module WeatherRecords {
  import opened Wrappers

  /** A numeric JSON value as the weather service sent it. The model never computes with
      doubles or longs, so a number is kept as its literal text. */
  datatype Number = Number(literal: string)

  /** The value a Java numeric field holds before a setter runs (0 or 0.0). */
  const Zero: Number := Number("0")

  /** One weather record. `name` is the cache key; it is a Java String and may be null
      (None) when the service's JSON object had no "name" member. */
  datatype WeatherData = WeatherData(
    name: Option<string>,
    speed: Number,
    deg: Number,
    temp: Number,
    humidity: Number,
    sunrise: Number,
    sunset: Number)
}
