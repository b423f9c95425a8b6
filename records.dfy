/** The records exchanged with the generation-mix feed and returned to clients. */
module Records {
  import opened Wrappers
  import opened FuelTypes

  /** A calendar date (`LocalDate`), counted in days from an arbitrary epoch, so that
      `isBefore` is `<` and `plusDays(n)` is `+ n`. */
  type Date = int

  /** A feed timestamp: the ISO-8601 text as received, and the local date that
      `OffsetDateTime.parse(text).toLocalDate()` extracts from it. */
  datatype Timestamp = Timestamp(text: string, date: Date)

  /** One fuel's share, in percent, of one interval's generation. */
  datatype Fuel = Fuel(fuelType: FuelType, percentage: real)

  /** One 30-minute interval of the feed. */
  datatype GenerationData = GenerationData(from: Timestamp, to: Timestamp, generationMix: seq<Fuel>)

  /** The feed's response body; `data` is absent when the JSON carries no list. */
  datatype CarbonIntensityResponse = CarbonIntensityResponse(data: Option<seq<GenerationData>>)

  datatype FuelDto = FuelDto(fuelType: FuelType, percentage: real)

  /** One day's summary; `date` stands for the `LocalDate.toString()` text. */
  datatype DailyMixDto = DailyMixDto(date: Date, metrics: seq<FuelDto>, cleanEnergyPercentage: real)

  datatype OptimalWindowDto = OptimalWindowDto(startDateTime: string, endDateTime: string, percentage: real)

  /** The exceptions the service lets escape, with their messages where the code sets one. */
  datatype ServiceError =
    | ExternalApiException(message: string)
    | IllegalArgumentException(message: string)
    | NullPointerException
    | IndexOutOfBoundsException
}
