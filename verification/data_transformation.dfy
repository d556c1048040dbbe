/** The query-string transformers applied to request parameters before
    validation. Only the boolean parser is modelled. */
module DataTransformation {
  import opened Wrappers

  /** `stringToBoolean`: a strict-equality switch over four spellings. The
      JavaScript `null` of the default branch is `None`. */
  function StringToBoolean(value: string): (r: Option<bool>)
    ensures r == Some(true) <==> value == "true" || value == "1"
    ensures r == Some(false) <==> value == "false" || value == "0"
    ensures r == None <==> value !in {"true", "1", "false", "0"}
  {
    match value
    case "true" => Some(true)
    case "1" => Some(true)
    case "false" => Some(false)
    case "0" => Some(false)
    case _ => None
  }

  /** The four accepted spellings and one rejected one, as in the unit tests. */
  lemma ParseExamples()
    ensures StringToBoolean("true") == Some(true)
    ensures StringToBoolean("false") == Some(false)
    ensures StringToBoolean("1") == Some(true)
    ensures StringToBoolean("0") == Some(false)
    ensures StringToBoolean("x") == None
  {
  }
}
