/** JSON values, as both codecs and protocols see them; their text is not modelled. */
module JsonValues {

  datatype Json =
    | Null
    | Bool(value: bool)
    | Number(number: real)
    | String(text: string)
    | Array(items: seq<Json>)
    | Object(fields: map<string, Json>)
}
