/** The canonical `Hotel` record every supplier record is normalised into
    (src/interfaces/hotelInterfaces.ts). Fields the declared interface types as
    plain strings or numbers are `Option`s here because the merger can store
    `undefined` in them (a record with no name alias, say). */
module HotelInterfaces {
  import opened JsSemantics

  /** One picture. The interface declares `link` and `description`; supplier
      records may carry `url` and `caption` instead, and the merger passes
      them through untouched. */
  datatype Image = Image(
    link: Option<string>,
    description: Option<string>,
    url: Option<string>,
    caption: Option<string>)

  /** What two images are compared on when de-duplicating. */
  function ImageKey(img: Image): (Option<string>, Option<string>) {
    (img.link, img.description)
  }

  /** `lat`/`lng` are `null` (None) or a truthy number; the string fields are
      `null` or a non-empty trimmed string once normalised. */
  datatype Location = Location(
    lat: Option<Num>,
    lng: Option<Num>,
    address: Option<string>,
    city: Option<string>,
    country: Option<string>,
    postalCode: Option<string>)

  datatype Amenities = Amenities(general: seq<string>, room: seq<string>)

  datatype Images = Images(rooms: seq<Image>, site: seq<Image>, amenities: seq<Image>)

  datatype Hotel = Hotel(
    id: Option<string>,
    destinationId: Option<Num>,
    name: Option<string>,
    location: Location,
    description: Option<string>,
    amenities: Amenities,
    images: Images,
    bookingConditions: seq<string>)
}
