/** The listing record of the catalog and the record the form emits.
    Numbers that may be NaN are Option values (None is NaN); fields that
    may be `null` are Nullable values. */
module PropertyRecord {
  import opened Wrappers

  /** The `type` values the form offers. */
  const Apartment: string := "mieszkanie"
  const House: string := "dom"

  /** The `transactionType` values the form offers. */
  const Rent: string := "wynajem"
  const Sale: string := "sprzedaż"

  /** The only currency the form emits. */
  const Currency: string := "PLN"

  datatype Coordinates = Coordinates(lat: real, lng: real)

  datatype Metrics = Metrics(area: Option<real>, rooms: Option<int>, floor: Nullable<Option<int>>)

  datatype Details = Details(description: string, amenities: seq<string>, yearBuilt: Nullable<Option<int>>)

  /** The record the form passes to `onSubmit`: coordinates as `lat`/`lng`,
      and an `id` only when an existing record is being edited. */
  datatype Submission = Submission(
    id: Option<string>,
    name: string,
    link: string,
    imageUrl: string,
    price: Option<real>,
    currency: string,
    propertyType: string,
    transactionType: string,
    lat: real,
    lng: real,
    metrics: Metrics,
    details: Details)

  /** A listing as the catalog holds it. */
  datatype Property = Property(
    id: Option<string>,
    name: string,
    link: string,
    imageUrl: string,
    price: Option<real>,
    currency: string,
    propertyType: string,
    transactionType: string,
    coordinates: Coordinates,
    metrics: Metrics,
    details: Details)
}
