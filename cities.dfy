/**
 * The city entity shared by the city table and the dashboard, and the shape of a record in
 * the city-search API's reply (`{records: [{fields: {name, timezone, population, cou_name_en}}]}`).
 */
module Cities {

  /** `interface City`; population is a JavaScript number, taken here as an integer. */
  datatype City = City(name: string, timezone: string, population: int, countryNameEn: string)

  /** The `fields` object of one API record (only the fields the app reads). */
  datatype Fields = Fields(name: string, timezone: string, population: int, couNameEn: string)

  datatype Record = Record(fields: Fields)

  /** The object literal built for each record: `cou_name_en` becomes `country_name_en`, nothing is lost. */
  function ToCity(record: Record): (c: City)
    ensures ToRecord(c) == record
  {
    City(record.fields.name, record.fields.timezone, record.fields.population, record.fields.couNameEn)
  }

  /** The record an API would have sent for `c`: the mapping loses nothing. */
  function ToRecord(c: City): Record {
    Record(Fields(c.name, c.timezone, c.population, c.countryNameEn))
  }

  lemma RecordRoundTrip(record: Record, c: City)
    ensures ToRecord(ToCity(record)) == record
    ensures ToCity(ToRecord(c)) == c
  {
  }

  /** `records.map(record => ({...}))`: one city per record, in the same order. */
  function MapRecords(records: seq<Record>): (cities: seq<City>)
    ensures |cities| == |records|
    ensures forall i :: 0 <= i < |records| ==> ToRecord(cities[i]) == records[i]
  {
    seq(|records|, i requires 0 <= i < |records| => ToCity(records[i]))
  }
}
