/**
 * The record shapes of realt.by.py: Product, Agent and Location. Every field is
 * optional in the sense of the source: absence is the empty string or the empty
 * list, never a separate marker.
 */
module Listing {

  /** Location: coordinates as raw strings plus the free-text place fields. */
  datatype Location = Location(
    longitude: string,
    latitude: string,
    region: string,
    locality: string,
    regionDistrict: string,
    direction: string,
    address: string)

  /** Agent: display name, email, and phone numbers in document order. */
  datatype Agent = Agent(name: string, email: string, phoneNumbers: seq<string>)

  /**
   * The price is the stripped text of the price block when there is one; a
   * Product that never saw a price block keeps the constructor's default, the
   * float 0.0, which is not a string.
   */
  datatype Price = DefaultPrice | PriceText(text: string)

  /** Product: one listing. */
  datatype Product = Product(
    id: string,
    url: string,
    published: string,
    title: string,
    price: Price,
    agent: Agent,
    location: Location,
    objectType: string)

  /** A Location built with every argument left at its default. */
  const EmptyLocation: Location := Location("", "", "", "", "", "", "")

  /** An Agent built with every argument left at its default. */
  const EmptyAgent: Agent := Agent("", "", [])
}
