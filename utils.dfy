/** The raw-value framing of `src/_utils.ts`: byte arrays travel through string-only backends as
    `"base64:"` followed by their base64 text, and strings travel unchanged. Also the guards that
    `safeSuperjsonParse` applies before handing a string to superjson. */
module Utils {
  import opened Values
  import Base64

  const BASE64_PREFIX: string := "base64:"

  /** `serializeRaw(value)`: strings unchanged; a `Uint8Array` becomes the prefix and its base64
      text. Any other value reaches `base64Encode`, where `Buffer.from` (or the spread into
      `String.fromCodePoint`) throws a TypeError: that outcome is None. */
  function SerializeRaw(v: Value): (r: Option<Value>)
    ensures r.Some? <==> v.Text? || v.Bytes?
    ensures r.Some? ==> r.value.Text?
    ensures v.Text? ==> r == Some(v)
    ensures v.Bytes? ==> StartsWith(r.value.s, BASE64_PREFIX) && |r.value.s| == |BASE64_PREFIX| + 4 * ((|v.data| + 2) / 3)
  {
    match v
    case Text(_) => Some(v)
    case Bytes(data) => Some(Text(BASE64_PREFIX + Base64.Encode(data)))
    case _ => None
  }

  /** `deserializeRaw(value)`: non-strings and strings without the prefix unchanged; otherwise the
      octets the base64 text after the prefix stands for. None when that text is not padded
      base64 (the platform decoders differ there). */
  function DeserializeRaw(v: Value): (r: Option<Value>)
    ensures !v.Text? ==> r == Some(v)
    ensures v.Text? && !StartsWith(v.s, BASE64_PREFIX) ==> r == Some(v)
    ensures v.Text? && StartsWith(v.s, BASE64_PREFIX) ==> r.None? || r.value.Bytes?
  {
    if !v.Text? then Some(v)
    else if !StartsWith(v.s, BASE64_PREFIX) then Some(v)
    else
      match Base64.Decode(v.s[|BASE64_PREFIX|..])
      case None => None
      case Some(octets) => Some(Bytes(octets))
  }

  /** A byte array survives the framing: `deserializeRaw(serializeRaw(bytes)) == bytes`. */
  lemma RawBytesRoundTrip(data: seq<byte>)
    ensures SerializeRaw(Bytes(data)).Some? && DeserializeRaw(SerializeRaw(Bytes(data)).value) == Some(Bytes(data))
  {
    var framed := BASE64_PREFIX + Base64.Encode(data);
    assert framed[|BASE64_PREFIX|..] == Base64.Encode(data);
    assert framed[..|BASE64_PREFIX|] == BASE64_PREFIX;
    Base64.DecodeEncode(data);
  }

  /** A string survives the framing exactly when it does not itself start with the prefix. */
  lemma RawTextRoundTrip(s: string)
    ensures SerializeRaw(Text(s)) == Some(Text(s))
    ensures DeserializeRaw(SerializeRaw(Text(s)).value) == Some(Text(s)) <==> !StartsWith(s, BASE64_PREFIX)
  {
  }

  /** A string that already starts with the prefix is taken for framed bytes on the way back:
      `"base64:AA=="` is stored unchanged and read back as the single octet 0. */
  lemma PrefixedTextIsDecoded()
    ensures DeserializeRaw(SerializeRaw(Text("base64:AA==")).value) == Some(Bytes([0]))
  {
    var s := "base64:AA==";
    assert StartsWith(s, BASE64_PREFIX);
    assert s[|BASE64_PREFIX|..] == "AA==";
    assert Base64.Decode("AA==") == Some([0]);
  }

  /** What `safeSuperjsonParse` does with its argument before superjson is consulted. */
  datatype ParseOutcome =
    | Returned(result: Value)        // returned without parsing
    | SuperjsonParse(text: string)   // handed to `superjson.parse` (null if that throws)

  /** `safeSuperjsonParse(value)`: non-strings are returned as they are, `""` and `"{}"` become
      `null`, and every other string is parsed by superjson. */
  function SafeSuperjsonParse(v: Value): (r: ParseOutcome)
    ensures r.Returned? <==> !v.Text? || v.s == "" || v.s == "{}"
    ensures !v.Text? ==> r == Returned(v)
    ensures v.Text? && (v.s == "" || v.s == "{}") ==> r == Returned(Null)
    ensures r.SuperjsonParse? ==> r.text == v.s
  {
    if !v.Text? then Returned(v)
    else if v.s == "" || v.s == "{}" then Returned(Null)
    else SuperjsonParse(v.s)
  }
}
