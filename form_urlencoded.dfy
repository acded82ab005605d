/** The application/x-www-form-urlencoded format of the WHATWG URL Standard
    (section 5): the parser (section 5.1) and the serializer (section 5.2)
    that URLSearchParams uses for a location's query string.

    Characters outside ASCII are kept as they are: their UTF-8 percent-encoding
    is not modelled, and since they are never '&', '=', '+' or '%' this does
    not disturb the structure of a query string. */
module FormUrlencoded {

  /** One name-value pair of a URLSearchParams list. */
  datatype Param = Param(name: string, value: string)

  /** The list of a URLSearchParams object, in order. */
  type Query = seq<Param>

  // ---------------------------------------------------------------------
  // Percent-encoding of one name or value
  // ---------------------------------------------------------------------

  /** Characters the serializer leaves as they are: ASCII alphanumerics and
      '*', '-', '.', '_'. */
  predicate Unreserved(c: char) {
    ('a' <= c <= 'z') || ('A' <= c <= 'Z') || ('0' <= c <= '9') ||
    c == '*' || c == '-' || c == '.' || c == '_'
  }

  function HexDigit(d: nat): (c: char)
    requires d < 16
    ensures IsHex(c) && HexValue(c) == d
  {
    "0123456789ABCDEF"[d]
  }

  predicate IsHex(c: char) {
    ('0' <= c <= '9') || ('A' <= c <= 'F') || ('a' <= c <= 'f')
  }

  function HexValue(c: char): (d: nat)
    requires IsHex(c)
    ensures d < 16
  {
    if '0' <= c <= '9' then c as int - '0' as int
    else if 'A' <= c <= 'F' then c as int - 'A' as int + 10
    else c as int - 'a' as int + 10
  }

  /** The serializer's output for one character: unreserved characters as
      they are, the space as '+', any other ASCII character as '%' and two
      upper-case hex digits, anything else unchanged (see the module note). */
  function EncodeChar(c: char): (r: string)
    ensures 1 <= |r| <= 3
    ensures '&' !in r && '=' !in r && '?' !in r
  {
    if Unreserved(c) then [c]
    else if c == ' ' then "+"
    else if c as int < 128 then ['%', HexDigit(c as int / 16), HexDigit(c as int % 16)]
    else [c]
  }

  function Encode(s: string): (r: string)
    ensures '&' !in r && '=' !in r && '?' !in r
    ensures |s| <= |r| <= 3 * |s|
  {
    if s == [] then [] else EncodeChar(s[0]) + Encode(s[1..])
  }

  /** The parser's decoding of one name or value: '+' becomes a space, a '%'
      followed by two hex digits becomes the character with that code, and
      every other character, a lone '%' included, stays as it is. */
  function Decode(s: string): (r: string)
    ensures |r| <= |s|
    decreases |s|
  {
    if s == [] then []
    else if s[0] == '+' then " " + Decode(s[1..])
    else if s[0] == '%' && |s| >= 3 && IsHex(s[1]) && IsHex(s[2]) then
      [(HexValue(s[1]) * 16 + HexValue(s[2])) as char] + Decode(s[3..])
    else [s[0]] + Decode(s[1..])
  }

  lemma DecodeEncodeChar(c: char, rest: string)
    ensures Decode(EncodeChar(c) + rest) == [c] + Decode(rest)
  {
    var e := EncodeChar(c);
    if !Unreserved(c) && c != ' ' && c as int < 128 {
      var hi, lo := c as int / 16, c as int % 16;
      assert e == ['%', HexDigit(hi), HexDigit(lo)];
      assert (e + rest)[3..] == rest;
      assert HexValue(HexDigit(hi)) * 16 + HexValue(HexDigit(lo)) == c as int;
    } else {
      assert (e + rest)[1..] == rest;
    }
  }

  /** Decoding undoes encoding, for every string. */
  lemma {:induction false} DecodeEncode(s: string)
    ensures Decode(Encode(s)) == s
  {
    if s != [] {
      DecodeEncodeChar(s[0], Encode(s[1..]));
      DecodeEncode(s[1..]);
    }
  }

  // ---------------------------------------------------------------------
  // Splitting and the whole query string
  // ---------------------------------------------------------------------

  /** Position of the first c in s, or |s| when there is none. */
  function IndexOf(s: string, c: char): (i: nat)
    ensures i <= |s|
    ensures c !in s[..i]
    ensures i < |s| ==> s[i] == c
  {
    if s == [] then 0
    else if s[0] == c then 0
    else
      var j := IndexOf(s[1..], c);
      assert s[..j + 1] == [s[0]] + s[1..][..j];
      j + 1
  }

  lemma {:induction false} IndexOfJoin(a: string, c: char, b: string)
    requires c !in a
    ensures IndexOf(a + [c] + b, c) == |a|
  {
    if a != [] {
      assert (a + [c] + b)[1..] == a[1..] + [c] + b;
      IndexOfJoin(a[1..], c, b);
    }
  }

  lemma IndexOfAbsent(s: string, c: char)
    requires c !in s
    ensures IndexOf(s, c) == |s|
  {
  }

  /** One '&'-separated piece: split at its first '=' (a piece without one
      has the empty value), then decode both halves. */
  function ParsePair(piece: string): (p: Param)
  {
    var i := IndexOf(piece, '=');
    Param(Decode(piece[..i]), if i < |piece| then Decode(piece[i + 1..]) else "")
  }

  /** The parser of section 5.1: split on '&', skip empty pieces, parse the
      rest in order. */
  function Parse(s: string): (q: Query)
    ensures |q| <= |s|
    decreases |s|
  {
    if s == [] then []
    else
      var i := IndexOf(s, '&');
      var rest := if i < |s| then Parse(s[i + 1..]) else [];
      if i == 0 then rest else [ParsePair(s[..i])] + rest
  }

  function SerializePair(p: Param): (r: string)
    ensures '&' !in r && |r| >= 1
  {
    Encode(p.name) + "=" + Encode(p.value)
  }

  /** The serializer of section 5.2: each pair as name=value, joined by '&'. */
  function Serialize(q: Query): (r: string)
    ensures '?' !in r
    ensures r == [] <==> q == []
  {
    if q == [] then []
    else if |q| == 1 then SerializePair(q[0])
    else SerializePair(q[0]) + "&" + Serialize(q[1..])
  }

  lemma ParseSerializePair(p: Param)
    ensures ParsePair(SerializePair(p)) == p
  {
    var n, v := Encode(p.name), Encode(p.value);
    var s := SerializePair(p);
    IndexOfJoin(n, '=', v);
    assert s[..|n|] == n;
    assert s[|n| + 1..] == v;
    DecodeEncode(p.name);
    DecodeEncode(p.value);
  }

  /** Parsing a serialized query gives back exactly the list, in order. */
  lemma {:induction false} ParseSerialize(q: Query)
    ensures Parse(Serialize(q)) == q
  {
    if q == [] {
    } else {
      var head := SerializePair(q[0]);
      ParseSerializePair(q[0]);
      if |q| == 1 {
        IndexOfAbsent(head, '&');
        assert head[..|head|] == head;
      } else {
        var s := Serialize(q);
        var tail := Serialize(q[1..]);
        assert s == head + ['&'] + tail;
        IndexOfJoin(head, '&', tail);
        assert s[..|head|] == head;
        assert s[|head| + 1..] == tail;
        ParseSerialize(q[1..]);
        assert q == [q[0]] + q[1..];
      }
    }
  }
}
