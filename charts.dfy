/** The records the service hands to the astrological engine: subjects and
    the chart object, and the two ways a two-subject chart is built. */
module Charts {
  import opened Wrappers
  import opened Schema

  /** A geocoder hit: latitude and longitude (floats in the source, never
      computed with here). */
  datatype Location = Location(latitude: real, longitude: real)

  /** The arguments an `AstrologicalSubject` is constructed from; `tz` is
      whatever the timezone lookup returned (`None` when it found nothing). */
  datatype Subject = Subject(
    name: string,
    year: int, month: int, day: int, hour: int, minute: int,
    city: string, lat: real, lng: real, tz: Option<string>)

  /** The subject for a person's request under the given internal name. */
  function PersonSubject(name: string, req: AstroRequest, loc: Location, tz: Option<string>): Subject
  {
    Subject(name, req.year, req.month, req.day, req.hour, req.minute, req.city, loc.latitude, loc.longitude, tz)
  }

  /** The subject for a transit moment, placed at the person's city. */
  function MomentSubject(name: string, m: Moment, city: string, loc: Location, tz: Option<string>): Subject
  {
    Subject(name, m.year, m.month, m.day, m.hour, m.minute, city, loc.latitude, loc.longitude, tz)
  }

  /** The chart object's attributes the service reads or assigns:
      `chart_type`, `second_obj`, `second_subject`, `t_subject`, and the
      theme it was constructed with. */
  datatype Chart = Chart(
    first: Subject,
    chartType: ChartType,
    secondObj: Option<Subject>,
    secondSubject: Option<Subject>,
    tSubject: Option<Subject>,
    theme: Option<string>)

  /** The names of the subjects a chart draws. */
  function SubjectNames(c: Chart): (names: set<string>)
    ensures c.first.name in names
    ensures forall n :: n in names ==> n == c.first.name || (c.secondSubject.Some? && n == c.secondSubject.value.name)
  {
    {c.first.name} + if c.secondSubject.Some? then {c.secondSubject.value.name} else {}
  }

  /** How one constructor call of the engine ends. */
  datatype Construction = Constructs | Throws(error: string)

  /** `KerykeionChartSVG(subject, theme=...)`: a natal chart of one subject. */
  function SingleChart(first: Subject, theme: Option<string>): Chart
  {
    Chart(first, Natal, None, None, None, theme)
  }

  /** `KerykeionChartSVG(first, mode, second, theme=...)`: the chart the
      primary path asks for, a chart of the given mode that draws both
      subjects. The engine's own construction is not visible: this record is
      an assumption that it sets the attributes the fallback path assigns
      by hand. */
  function PrimaryChart(first: Subject, mode: ChartType, second: Subject, theme: Option<string>): (c: Chart)
    requires mode != Natal
    ensures c.chartType == mode && c.first == first && c.secondSubject == Some(second)
    ensures SubjectNames(c) == {first.name, second.name}
  {
    Chart(first, mode, Some(second), Some(second), if mode == Transit then Some(second) else None, theme)
  }

  /** The transit fallback: a single-subject chart whose mode tag and
      second-subject attributes are then assigned one by one. */
  function TransitFallback(first: Subject, second: Subject, theme: Option<string>): (c: Chart)
    ensures c.chartType == Transit && c.secondObj == c.secondSubject == c.tSubject == Some(second)
    ensures c.first == first && c.theme == theme && SubjectNames(c) == {first.name, second.name}
  {
    var c := SingleChart(first, theme);
    var c := c.(chartType := Transit);
    var c := c.(tSubject := Some(second));
    var c := c.(secondObj := Some(second));
    c.(secondSubject := Some(second))
  }

  /** The synastry fallback: as for transit, without `t_subject`. */
  function SynastryFallback(first: Subject, second: Subject, theme: Option<string>): (c: Chart)
    ensures c.chartType == Synastry && c.secondObj == c.secondSubject == Some(second) && c.tSubject.None?
    ensures c.first == first && c.theme == theme && SubjectNames(c) == {first.name, second.name}
  {
    var c := SingleChart(first, theme);
    var c := c.(chartType := Synastry);
    var c := c.(secondObj := Some(second));
    c.(secondSubject := Some(second))
  }

  /** The fallback assignments leave the chart as the primary record
      assumes the two-subject constructor does, in both modes. */
  lemma FallbackAgreesWithPrimary(first: Subject, second: Subject, theme: Option<string>)
    ensures TransitFallback(first, second, theme) == PrimaryChart(first, Transit, second, theme)
    ensures SynastryFallback(first, second, theme) == PrimaryChart(first, Synastry, second, theme)
  {
  }

  /** Building a two-subject chart: try the primary construction; if it
      throws, build the single-subject chart and assign the fields; if that
      throws too, its exception propagates. */
  function TwoSubjectChart(first: Subject, mode: ChartType, second: Subject, theme: Option<string>,
                           primary: Construction, fallback: Construction): (r: Outcome<Chart>)
    requires mode != Natal
    ensures r.Returned? <==> primary.Constructs? || fallback.Constructs?
    ensures r.Returned? ==> r.value == PrimaryChart(first, mode, second, theme)
    ensures r.Raised? ==> r.message == fallback.error
  {
    if primary.Constructs? then Returned(PrimaryChart(first, mode, second, theme))
    else if fallback.Throws? then Raised(fallback.error)
    else if mode == Transit then Returned(TransitFallback(first, second, theme))
    else Returned(SynastryFallback(first, second, theme))
  }
}
