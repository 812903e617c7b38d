// Base64 with the URL-safe alphabet and without padding (section 5 of RFC 4648).
module Base64Url {
  import opened Sums

  type Byte = n: nat | n < 256

  type Sextet = n: nat | n < 64

  function CharOf(v: Sextet): char {
    if v < 26 then 'A' + v as char
    else if v < 52 then 'a' + (v - 26) as char
    else if v < 62 then '0' + (v - 52) as char
    else if v == 62 then '-' else '_'
  }

  function ValueOf(c: char): Option<Sextet> {
    if 'A' <= c <= 'Z' then Some((c - 'A') as int)
    else if 'a' <= c <= 'z' then Some((c - 'a') as int + 26)
    else if '0' <= c <= '9' then Some((c - '0') as int + 52)
    else if c == '-' then Some(62)
    else if c == '_' then Some(63)
    else None
  }

  lemma CharRoundTrip(v: Sextet)
    ensures ValueOf(CharOf(v)) == Some(v)
  {
  }

  /** The code points of Table 2 of RFC 4648. */
  lemma Alphabet(v: Sextet)
    ensures CharOf(v) as int == if v <= 25 then v + 65 else if v <= 51 then v + 71 else if v <= 61 then v - 4
                                else if v == 62 then 45 else 95
  {
  }

  // ---------- Groups of bytes and of sextets ----------

  // The four sextets of a group of three bytes, missing ones read as 0.

  function Sextet0(a: Byte): Sextet { a / 4 }

  function Sextet1(a: Byte, b: Byte): Sextet { a % 4 * 16 + b / 16 }

  function Sextet2(b: Byte, c: Byte): Sextet { b % 16 * 4 + c / 64 }

  function Sextet3(c: Byte): Sextet { c % 64 }

  function Sextets(data: seq<Byte>): seq<Sextet> {
    if |data| == 0 then []
    else if |data| == 1 then [Sextet0(data[0]), Sextet1(data[0], 0)]
    else if |data| == 2 then [Sextet0(data[0]), Sextet1(data[0], data[1]), Sextet2(data[1], 0)]
    else [Sextet0(data[0]), Sextet1(data[0], data[1]), Sextet2(data[1], data[2]), Sextet3(data[2])] + Sextets(data[3..])
  }

  // The three bytes of a group of four sextets.

  function Byte0(a: Sextet, b: Sextet): Byte { a * 4 + b / 16 }

  function Byte1(b: Sextet, c: Sextet): Byte { b % 16 * 16 + c / 4 }

  function Byte2(c: Sextet, d: Sextet): Byte { c % 4 * 64 + d }

  /** A single sextet left over is an error; bits that do not fill a byte are ignored. */
  function Bytes(v: seq<Sextet>): Option<seq<Byte>> {
    if |v| == 0 then Some([])
    else if |v| == 1 then None
    else if |v| == 2 then Some([Byte0(v[0], v[1])])
    else if |v| == 3 then Some([Byte0(v[0], v[1]), Byte1(v[1], v[2])])
    else
      var rest := Bytes(v[4..]);
      if rest.None? then None
      else Some([Byte0(v[0], v[1]), Byte1(v[1], v[2]), Byte2(v[2], v[3])] + rest.value)
  }

  lemma GroupRoundTrip(a: Byte, b: Byte, c: Byte)
    ensures Byte0(Sextet0(a), Sextet1(a, b)) == a
    ensures Byte1(Sextet1(a, b), Sextet2(b, c)) == b
    ensures Byte2(Sextet2(b, c), Sextet3(c)) == c
  {
  }

  lemma ReadGroup(v: seq<Sextet>, a: Byte, b: Byte, c: Byte, rest: seq<Byte>)
    requires |v| >= 4 && v[..4] == [Sextet0(a), Sextet1(a, b), Sextet2(b, c), Sextet3(c)] && Bytes(v[4..]) == Some(rest)
    ensures Bytes(v) == Some([a, b, c] + rest)
  {
    assert v[0] == v[..4][0] && v[1] == v[..4][1] && v[2] == v[..4][2] && v[3] == v[..4][3];
    GroupRoundTrip(a, b, c);
  }

  /** A full group of three bytes is read back whatever follows it. */
  lemma FullGroup(data: seq<Byte>)
    requires |data| > 2 && Bytes(Sextets(data[3..])) == Some(data[3..])
    ensures Bytes(Sextets(data)) == Some(data)
  {
    var v := Sextets(data);
    assert v[4..] == Sextets(data[3..]);
    ReadGroup(v, data[0], data[1], data[2], data[3..]);
    assert data == [data[0], data[1], data[2]] + data[3..];
  }

  lemma ReadTwo(v: seq<Sextet>, a: Byte, b: Byte)
    requires |v| == 2 && v[0] == Sextet0(a) && v[1] == Sextet1(a, b)
    ensures Bytes(v) == Some([a])
  {
    GroupRoundTrip(a, b, b);
  }

  lemma ReadThree(v: seq<Sextet>, a: Byte, b: Byte, c: Byte)
    requires |v| == 3 && v[0] == Sextet0(a) && v[1] == Sextet1(a, b) && v[2] == Sextet2(b, c)
    ensures Bytes(v) == Some([a, b])
  {
    GroupRoundTrip(a, b, c);
  }

  lemma OneByte(data: seq<Byte>)
    requires |data| == 1
    ensures Bytes(Sextets(data)) == Some(data)
  {
    assert data == [data[0]];
    var v := Sextets(data);
    assert v == [Sextet0(data[0]), Sextet1(data[0], 0)];
    ReadTwo(v, data[0], 0);
  }

  lemma TwoBytes(data: seq<Byte>)
    requires |data| == 2
    ensures Bytes(Sextets(data)) == Some(data)
  {
    assert data == [data[0], data[1]];
    ReadThree(Sextets(data), data[0], data[1], 0);
  }

  lemma {:induction false} SextetsRoundTrip(data: seq<Byte>)
    ensures Bytes(Sextets(data)) == Some(data)
    decreases |data|
  {
    if |data| > 2 {
      SextetsRoundTrip(data[3..]);
      FullGroup(data);
    } else if |data| == 2 {
      TwoBytes(data);
    } else if |data| == 1 {
      OneByte(data);
    }
  }

  // ---------- Text ----------

  function Write(v: seq<Sextet>): string {
    if v == [] then "" else [CharOf(v[0])] + Write(v[1..])
  }

  function Read(s: string): Option<seq<Sextet>> {
    if s == [] then Some([])
    else
      var first, rest := ValueOf(s[0]), Read(s[1..]);
      if first.Some? && rest.Some? then Some([first.value] + rest.value) else None
  }

  lemma ReadFirst(s: string, c: char, v: Sextet, rest: seq<Sextet>)
    requires ValueOf(c) == Some(v) && Read(s) == Some(rest)
    ensures Read([c] + s) == Some([v] + rest)
  {
    assert ([c] + s)[1..] == s;
  }

  lemma {:induction false} WriteRoundTrip(v: seq<Sextet>)
    ensures Read(Write(v)) == Some(v)
  {
    if v != [] {
      CharRoundTrip(v[0]);
      WriteRoundTrip(v[1..]);
      ReadFirst(Write(v[1..]), CharOf(v[0]), v[0], v[1..]);
      assert v == [v[0]] + v[1..];
    }
  }

  function Encode(data: seq<Byte>): string { Write(Sextets(data)) }

  function Decode(s: string): Option<seq<Byte>> {
    var v := Read(s);
    if v.None? then None else Bytes(v.value)
  }

  /** Decoding gives back what was encoded, whatever the length modulo 3 of the data. */
  lemma EncodeRoundTrip(data: seq<Byte>)
    ensures Decode(Encode(data)) == Some(data)
  {
    WriteRoundTrip(Sextets(data));
    SextetsRoundTrip(data);
  }

  /** Bytes are taken from the top: each group of four sextets writes the same number as its three bytes. */
  lemma GroupValue(a: Byte, b: Byte, c: Byte)
    ensures ((Sextet0(a) * 64 + Sextet1(a, b)) * 64 + Sextet2(b, c)) * 64 + Sextet3(c) == (a * 256 + b) * 256 + c
  {
  }
}
