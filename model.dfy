/** The payload types of src/model.ts. */
module Model {
  import opened Wrappers

  /** One occupancy bin. `next` is the shallow copy of the following bin
      that the load loop attaches; it is absent in the raw payload. */
  datatype Occupancy = Occupancy(frequency: real, value: real, next: Option<Occupancy>)

  /** One measurement of the line series. */
  datatype RawValue = RawValue(frequency: real, rms: real, peak: real)

  datatype Data = Data(occupancy: seq<Occupancy>, result: seq<RawValue>)

  const EmptyData: Data := Data([], [])
}
