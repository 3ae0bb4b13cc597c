/** The records the tracker keeps: a sold vehicle ("quadricycle") and the
    maintenance reviews scheduled for it. */
module Types {

  /** A value that may be absent: an optional field, a missing storage key,
      a failed fetch. */
  datatype Option<+T> = None | Some(value: T)

  /** A calendar date as a day number, so that adding n days is adding n. */
  type Date = int

  /** The life-cycle status of a vehicle's maintenance cycle. */
  datatype Status = Active | Completed

  /** One scheduled maintenance review. `id` is the review number (1, 2, 3);
      `title` is the display label (`label` is a Dafny keyword). */
  datatype Review = Review(
    id: int,
    title: string,
    scheduledDate: Date,
    isCompleted: bool,
    daysFromPrevious: int,
    observation: Option<string>,
    responsible: Option<string>,
    km: Option<string>)

  /** A sold vehicle with its reviews. `status` is optional because the
      record built by the form handler leaves it out. */
  datatype Quadricycle = Quadricycle(
    id: string,
    model: string,
    purchaseDate: Date,
    clientName: string,
    whatsapp: string,
    reviews: seq<Review>,
    status: Option<Status>)
}
