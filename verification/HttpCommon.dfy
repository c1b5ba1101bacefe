/** What the request and the response parser share: outcomes, header items, byte classes, size
    arithmetic and the header searches. */
module HttpCommon {
  import opened Ascii

  /** `Thrown` is the `std::length_error` that `reserve` raises for a size above `max_size`. */
  datatype ParseResult = ParsingCompleted | ParsingIncomplete | ParsingError | Thrown

  datatype HeaderItem = HeaderItem(name: string, value: string)

  const SIZE_MODULUS: nat := 0x1_0000_0000_0000_0000
  const MAX_SIZE: nat := 0x7FFF_FFFF_FFFF_FFFF

  predicate IsChar(c: char) { c as int <= 127 }

  predicate IsControl(c: char) { c as int <= 31 || c as int == 127 }

  predicate IsSpecial(c: char) {
    || c == '(' || c == ')' || c == '<' || c == '>' || c == '@' || c == ',' || c == ';' || c == ':'
    || c == '\\' || c == '\"' || c == '/' || c == '[' || c == ']' || c == '?' || c == '=' || c == '{'
    || c == '}' || c == ' ' || c == '\t'
  }

  /** The bytes of a method or header name. */
  predicate IsToken(c: char) { IsChar(c) && !IsControl(c) && !IsSpecial(c) }

  /** Conversion of an `int` to `size_t`. */
  function ToSize(n: int): nat { n % SIZE_MODULUS }

  /** `--n` on a `size_t`. */
  function Decrement(n: nat): nat { if n == 0 then SIZE_MODULUS - 1 else n - 1 }

  /** `chunkSize = strtol(...)`: saturates at `LONG_MAX`. */
  function ChunkLength(s: string): nat {
    if HexNumber(s) > MAX_SIZE then MAX_SIZE else HexNumber(s)
  }

  predicate IsContentLength(h: HeaderItem) { EqualsIgnoreCase(h.name, "Content-Length") }

  predicate IsChunked(h: HeaderItem) {
    !IsContentLength(h) && EqualsIgnoreCase(h.name, "Transfer-Encoding") && EqualsIgnoreCase(h.value, "chunked")
  }

  /** `std::find_if(headers, checkIfConnection)`: the index of the first Connection header, or `|headers|`. */
  function FindConnection(headers: seq<HeaderItem>): (k: nat)
    ensures k <= |headers|
    ensures k < |headers| ==> EqualsIgnoreCase(headers[k].name, "Connection")
    ensures forall j | 0 <= j < k :: !EqualsIgnoreCase(headers[j].name, "Connection")
  {
    if headers == [] then 0
    else if EqualsIgnoreCase(headers[0].name, "Connection") then 0
    else 1 + FindConnection(headers[1..])
  }

  /** The keep-alive flag after the header block; `before` is its value until then. */
  function KeepAlive(headers: seq<HeaderItem>, major: nat, minor: nat, before: bool): bool {
    var k := FindConnection(headers);
    if k < |headers| then EqualsIgnoreCase(headers[k].value, "Keep-Alive")
    else before || major > 1 || (major == 1 && minor == 1)
  }

  function Last(headers: seq<HeaderItem>): HeaderItem
    requires headers != []
  {
    headers[|headers| - 1]
  }

  function Front(headers: seq<HeaderItem>): seq<HeaderItem>
    requires headers != []
  {
    headers[..|headers| - 1]
  }

  function AppendToName(headers: seq<HeaderItem>, c: char): seq<HeaderItem>
    requires headers != []
  {
    Front(headers) + [HeaderItem(Last(headers).name + [c], Last(headers).value)]
  }

  function AppendToValue(headers: seq<HeaderItem>, c: char): seq<HeaderItem>
    requires headers != []
  {
    Front(headers) + [HeaderItem(Last(headers).name, Last(headers).value + [c])]
  }

  /** The body length the headers announce: the last Content-Length wins. */
  function Announced(headers: seq<HeaderItem>): nat {
    if headers == [] then 0
    else if IsContentLength(Last(headers)) then ToSize(Atoi(Last(headers).value))
    else Announced(Front(headers))
  }

  predicate AnyChunked(headers: seq<HeaderItem>) { exists h | h in headers :: IsChunked(h) }

  // ---------- Classes and names, spelled out ----------

  /** A token byte is a `tchar` of section 3.2.6 of RFC 7230. */
  lemma TokenIsTchar(c: char)
    ensures IsToken(c) <==> IsDigit(c) || IsAlpha(c) || c in "!#$%&'*+-.^_`|~"
  {
  }

  lemma ControlSpelled(c: char)
    ensures IsChar(c) && !IsControl(c) <==> ' ' <= c <= '~'
    ensures !IsChar(c) ==> !IsControl(c)
  {
  }

  /** The framing headers and the connection header are known by their names in any case, and no others are. */
  lemma FramingSpelled(h: HeaderItem)
    ensures IsContentLength(h) <==> SameButCase(h.name, "Content-Length")
    ensures IsChunked(h) <==> SameButCase(h.name, "Transfer-Encoding") && SameButCase(h.value, "chunked")
  {
    IgnoringCaseMeans(h.name, "Content-Length");
    IgnoringCaseMeans(h.name, "Transfer-Encoding");
    IgnoringCaseMeans(h.value, "chunked");
  }

  /** A chunk size spelled in any case, with leading zeros and with or without `0x`. */
  lemma ChunkLengthSpelled(n: nat, zeros: nat, digits: string)
    requires Lower(digits) == Lower(Hex(n))
    ensures var size := if n > MAX_SIZE then MAX_SIZE else n;
            && ChunkLength(seq(zeros, _ => '0') + digits) == size
            && ChunkLength("0x" + seq(zeros, _ => '0') + digits) == size
  {
    HexSpellings(n, zeros, digits);
  }

  /** The decision on keeping the connection: the first Connection header, or else the version. */
  ghost predicate KeptAlive(headers: seq<HeaderItem>, major: nat, minor: nat) {
    || (exists k: nat :: k < |headers| && IsFirstConnection(headers, k) && SameButCase(headers[k].value, "Keep-Alive"))
    || ((forall k | 0 <= k < |headers| :: !SameButCase(headers[k].name, "Connection"))
        && (major > 1 || (major == 1 && minor == 1)))
  }

  ghost predicate IsFirstConnection(headers: seq<HeaderItem>, k: nat)
    requires k < |headers|
  {
    SameButCase(headers[k].name, "Connection") && forall j | 0 <= j < k :: !SameButCase(headers[j].name, "Connection")
  }

  lemma KeepAliveMeans(headers: seq<HeaderItem>, major: nat, minor: nat)
    ensures KeepAlive(headers, major, minor, false) <==> KeptAlive(headers, major, minor)
  {
    hide EqualsIgnoreCase, SameButCase;
    forall k | 0 <= k < |headers|
      ensures EqualsIgnoreCase(headers[k].name, "Connection") <==> SameButCase(headers[k].name, "Connection")
      ensures EqualsIgnoreCase(headers[k].value, "Keep-Alive") <==> SameButCase(headers[k].value, "Keep-Alive")
    {
      IgnoringCaseMeans(headers[k].name, "Connection");
      IgnoringCaseMeans(headers[k].value, "Keep-Alive");
    }
    var k := FindConnection(headers);
    if k < |headers| {
      assert IsFirstConnection(headers, k);
      forall j: nat | j < |headers| && IsFirstConnection(headers, j) ensures j == k { FirstIsUnique(headers, j, k); }
    }
  }

  lemma FirstIsUnique(headers: seq<HeaderItem>, j: nat, k: nat)
    requires j < |headers| && k < |headers| && IsFirstConnection(headers, j) && IsFirstConnection(headers, k)
    ensures j == k
  {
  }
}
