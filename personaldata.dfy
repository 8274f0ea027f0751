/** The user's body data, embedded in every record. Printing it is not modelled. */
module PersonalData {

  /** Name, weight in kilograms and height in metres (Go float64, here exact reals). */
  datatype Personal = Personal(name: string, weight: real, height: real)
}
