/** The request schema's enumerations and records (app/schemas/shema.py).
    Only the fields the report service passes on to the engine are kept. */
module Schema {

  /** `ChartType`: the renderer's mode tag. */
  datatype ChartType = Natal | Transit | Synastry

  /** `Theme`: the request schema offers only these two values. */
  datatype Theme = Light | Dark
  {
    function Value(): (v: string)
      ensures v != "Classic"
    {
      match this
      case Light => "light"
      case Dark => "dark"
    }
  }

  /** `HouseSystem`: carried by the request; the service's attempt to apply
      it to the subject is not part of this model. */
  datatype HouseSystem = Placidus | Koch | WholeSign | EqualHouse

  /** `AstroRequest`: one person's birth data and rendering options. */
  datatype AstroRequest = AstroRequest(
    name: string,
    year: int, month: int, day: int, hour: int, minute: int,
    city: string,
    theme: Theme,
    houseSystem: HouseSystem)

  /** The calendar fields of a `datetime` that the service passes to the
      engine; the seconds, microseconds and timezone are not kept. */
  datatype Moment = Moment(year: int, month: int, day: int, hour: int, minute: int)

  /** `TransitRequest`: a person and the transit moment (the caller's clock
      supplies the default "now"). */
  datatype TransitRequest = TransitRequest(person: AstroRequest, transitDate: Moment)

  /** `SynastryRequest`: two people. */
  datatype SynastryRequest = SynastryRequest(personOne: AstroRequest, personTwo: AstroRequest)
}
