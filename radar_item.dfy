/** A record of the train-simulator radar feed (www.rentor.nl GetRadarData):
    a JSON object whose values are read as strings. */
module RadarItem {
  type Item = map<string, string>

  /** `item.get(key, default)` */
  function Get(item: Item, key: string, default: string): (v: string)
    ensures key in item ==> v == item[key]
    ensures key !in item ==> v == default
  {
    if key in item then item[key] else default
  }

  /** A longitude/latitude pair, GEOS `Point(x, y)` with x the longitude. */
  datatype Point = Point(x: real, y: real)
}
