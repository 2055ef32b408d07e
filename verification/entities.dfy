/** The API records the front end receives. */
module Entities {

  /** A gobo as the REST API returns it. */
  datatype Gobo = Gobo(
    iri: string,
    id: int,
    manufacturer: string,
    material: string,
    name: string,
    code: string,
    imageId: string,
    sortWeight: int,
    /** Gobos without transparent portions; their opacity is adjusted when stacked. */
    adjustOpacity: bool)
}
