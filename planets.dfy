/** The fixed set of bodies a natal report lists, and the map built from
    the renderer's subject (positions and houses are the engine's, opaque). */
module Planets {

  datatype Body = Sun | Moon | Mercury | Venus | Mars | Jupiter | Saturn
  {
    /** The key under which the report lists the body. */
    function Key(): string
    {
      match this
      case Sun => "Sun"
      case Moon => "Moon"
      case Mercury => "Mercury"
      case Venus => "Venus"
      case Mars => "Mars"
      case Jupiter => "Jupiter"
      case Saturn => "Saturn"
    }
  }

  /** A body's `{"pos": ..., "house": ...}` entry; both values come from the
      astrological engine and are not interpreted here. */
  datatype Placement = Placement(pos: real, house: string)

  const BodyKeys: set<string> := {"Sun", "Moon", "Mercury", "Venus", "Mars", "Jupiter", "Saturn"}

  /** The report's `planets` block: one entry per body, holding that body's
      placement, and no other key. */
  function PlanetsData(placement: Body -> Placement): (r: map<string, Placement>)
    ensures r.Keys == BodyKeys
    ensures forall b: Body :: b.Key() in r && r[b.Key()] == placement(b)
  {
    map[
      "Sun" := placement(Sun),
      "Moon" := placement(Moon),
      "Mercury" := placement(Mercury),
      "Venus" := placement(Venus),
      "Mars" := placement(Mars),
      "Jupiter" := placement(Jupiter),
      "Saturn" := placement(Saturn)
    ]
  }

  /** Every key of the block names exactly one body. */
  lemma KeysNameOneBody(k: string)
    requires k in BodyKeys
    ensures exists b: Body :: b.Key() == k
    ensures forall b1: Body, b2: Body :: b1.Key() == k && b2.Key() == k ==> b1 == b2
  {
    if k == "Sun" { assert Sun.Key() == k; }
    else if k == "Moon" { assert Moon.Key() == k; }
    else if k == "Mercury" { assert Mercury.Key() == k; }
    else if k == "Venus" { assert Venus.Key() == k; }
    else if k == "Mars" { assert Mars.Key() == k; }
    else if k == "Jupiter" { assert Jupiter.Key() == k; }
    else { assert Saturn.Key() == k; }
  }
}
