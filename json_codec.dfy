// The JSON text codecs the daemon protocol relies on: Jackson's writer and
// tree reader on the Java side, `json.dumps`/`json.loads` and `str` on the
// Python side. Their text formats are outside the model; they enter as
// functions, and `Agree` is the one assumption the end-to-end lemmas make
// about them: each reader reads back what the other side writes, and
// Python's `json.loads` refuses empty text.
module JsonCodec {
  import opened Wrappers
  import opened Json
  import opened Framing

  datatype Codec = Codec(
    javaWrite: Json -> seq<Byte>,        // ObjectMapper.writeValueAsBytes
    javaText: Json -> string,            // ObjectMapper.writeValueAsString
    javaRead: seq<Byte> -> Option<Node>, // ObjectMapper.readTree; None when it throws
    pyDumps: Json -> seq<Byte>,          // json.dumps(...).encode()
    pyLoads: seq<Byte> -> Option<Json>,  // json.loads(raw.decode()); None when it raises
    pyLoadsText: string -> Option<Json>, // json.loads(str); None on JSONDecodeError
    pyStr: Json -> string)               // str(value)

  ghost predicate Agree(c: Codec)
  {
    (forall j :: c.javaRead(c.pyDumps(j)) == Some(Present(j))) &&
    (forall j :: c.pyLoads(c.javaWrite(j)) == Some(j)) &&
    (forall j :: c.pyLoadsText(c.javaText(j)) == Some(j)) &&
    c.pyLoadsText("") == None
  }

  /** Jackson never writes empty text when Python's reader can read it back. */
  lemma JavaTextNonEmpty(c: Codec, j: Json)
    requires Agree(c)
    ensures c.javaText(j) != ""
  {
    assert c.pyLoadsText(c.javaText(j)) == Some(j);
  }
}
