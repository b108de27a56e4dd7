/** The record a cleaning task is stored as, and the types it is built from. */
module Items {
  import opened Wrappers

  /** A calendar date, as the number of the UTC day it names. */
  type Day = int

  /** The identifier the item store hands out when a record is created. */
  type Key = string

  /** One cleaning task as the item store holds it. `lastCleaned` is `None`
      when the stored date does not parse as a date (a cleared date input
      stores the empty string); `frequency` is a label such as "2 weeks". */
  datatype Item = Item(name: string, category: string, lastCleaned: Option<Day>, frequency: string)
}
