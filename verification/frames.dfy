/**
 The per-chunk frame extractor of `start_listening_for_updates`: every chunk
 read from the response body is looked at on its own, with no buffering
 across chunks and no splitting into lines.
 */
module Frames {
  import opened Wrappers
  import opened Strings
  import opened Models

  /** The field prefix a chunk must open with to carry a payload. */
  const DataPrefix: string := "data: "

  /** One chunk of the response body, as `String::from_utf8` sees it. */
  datatype Chunk = Valid(text: string) | InvalidUtf8

  /** Invalid UTF-8 falls back to the empty string. */
  function ChunkText(c: Chunk): string {
    match c
    case Valid(t) => t
    case InvalidUtf8 => ""
  }

  /**
   `text` is one or more copies of the prefix, then whitespace `a`, the
   trimmed payload `m` and whitespace `b`, and `a + m + b` does not itself
   open with the prefix.
   */
  ghost predicate Framed(text: string, k: nat, a: string, m: string, b: string) {
    && k >= 1
    && text == Repeat(DataPrefix, k) + (a + m + b)
    && !StartsWith(a + m + b, DataPrefix)
    && TrimmedFrom(a + m + b, a, m, b)
  }

  /**
   The payload of a chunk: present when the decoded text starts with the
   prefix; then every leading copy of the prefix is removed and the rest is
   trimmed.
   */
  function Extract(c: Chunk): Option<string> {
    var text := ChunkText(c);
    if StartsWith(text, DataPrefix) then Some(Trim(StripPrefixes(text, DataPrefix))) else None
  }

  /**
   A chunk carries a payload exactly when it is valid UTF-8 opening with the
   prefix, and that payload is the trimmed core of one framing of the text.
   */
  lemma ExtractSound(c: Chunk)
    ensures Extract(c).Some? <==> c.Valid? && StartsWith(c.text, DataPrefix)
    ensures Extract(c).Some? ==> exists k, a, b :: Framed(c.text, k, a, Extract(c).value, b)
  {
    if Extract(c).Some? {
      var text := c.text;
      var rest := StripPrefixes(text, DataPrefix);
      var m := Trim(rest);
      TrimSound(rest);
      var k := Copies(text, DataPrefix);
      StripPrefixesSound(text, DataPrefix);
      var a, b :| TrimmedFrom(rest, a, m, b);
      assert Framed(text, k, a, m, b);
    }
  }

  /** Conversely, every framing of a chunk's text yields its payload. */
  lemma ExtractComplete(text: string, k: nat, a: string, m: string, b: string)
    requires Framed(text, k, a, m, b)
    ensures Extract(Valid(text)) == Some(m)
  {
    var rest := a + m + b;
    StripPrefixesUnique(text, DataPrefix, k, rest);
    assert Repeat(DataPrefix, k) == DataPrefix + Repeat(DataPrefix, k - 1);
    assert StartsWith(text, DataPrefix);
    TrimUnique(rest, a, m, b);
  }

  /**
   What one chunk hands to the handler: the decoded payload, if the chunk
   has one and it decodes. `decode` stands for
   `serde_json::from_slice::<ServerConfig>` on the payload's bytes.
   */
  function ChunkConfig(decode: string -> Option<ServerConfig>, c: Chunk): (r: Option<ServerConfig>)
    ensures r.Some? ==> c.Valid? && StartsWith(c.text, DataPrefix)
    ensures r.Some? ==> exists payload :: Extract(c) == Some(payload) && decode(payload) == r
  {
    match Extract(c)
    case None => None
    case Some(payload) => decode(payload)
  }

  /**
   A framed chunk whose payload decodes hands exactly that configuration to
   the handler.
   */
  lemma ChunkConfigDelivers(decode: string -> Option<ServerConfig>, text: string, k: nat, a: string, m: string, b: string, x: ServerConfig)
    requires Framed(text, k, a, m, b)
    requires decode(m) == Some(x)
    ensures ChunkConfig(decode, Valid(text)) == Some(x)
  {
    ExtractComplete(text, k, a, m, b);
  }
}
