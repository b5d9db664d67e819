/**
 * The assistant's fixed configuration: the service catalog (in catalog
 * order, which decides ties when a reply names more than one service),
 * the working hours, the slot granularity and the blackout dates.
 */
module Config {

  /**
   * A catalog entry; the price is in cents and is never interpreted by the
   * engine. The entries' descriptions are display text the engine never
   * reads, and are not part of this model.
   */
  datatype ServiceOption = ServiceOption(
    id: string,
    name: string,
    durationMinutes: nat,
    priceCents: nat)

  const BusinessName: string := "Sasha K Makeup"

  const Location: string := "Studio near Downtown, 125 Bloom St, Suite 3B"

  const Services: seq<ServiceOption> := [
    ServiceOption("bridal", "Bridal Glam", 120, 35000),
    ServiceOption("party", "Party Glam", 90, 22000),
    ServiceOption("natural", "Natural Beat", 60, 15000),
    ServiceOption("trial", "Bridal Trial", 75, 18000)
  ]

  /** Opening and closing time of day, as `HH:mm` text. */
  const Open: string := "10:00"

  const Close: string := "18:00"

  /** Weekdays open, 0 = Sunday .. 6 = Saturday: every day except Monday. */
  const DaysOpen: seq<nat> := [2, 3, 4, 5, 6, 0]

  const SlotMinutes: nat := 30

  const BlackoutDates: seq<string> := []
}
