/**
 * The application/x-www-form-urlencoded format of the WHATWG URL Standard,
 * which `URLSearchParams.toString()` produces: the serializer of section 5.2
 * and, as its partner, the parser of section 5.1 that a server applies to the
 * query string. The main result is that parsing undoes serializing, so the
 * name/value pairs arrive in order and unchanged.
 */
module FormUrlEncoded {
  import opened Wrappers
  import Utf8

  type byte = Utf8.byte

  const Ampersand: byte := 0x26
  const EqualsSign: byte := 0x3D
  const PlusSign: byte := 0x2B
  const Space: byte := 0x20
  const PercentSign: byte := 0x25

  /** Bytes outside the application/x-www-form-urlencoded percent-encode set:
      ASCII alphanumerics and `*`, `-`, `.`, `_`. */
  predicate IsUnreserved(b: byte) {
    (0x30 <= b <= 0x39) || (0x41 <= b <= 0x5A) || (0x61 <= b <= 0x7A)
    || b == 0x2A || b == 0x2D || b == 0x2E || b == 0x5F
  }

  /** Upper-case hexadecimal digit for a value below 16. */
  function HexDigit(d: nat): (r: byte)
    requires d < 16
    ensures HexValue(r) == Some(d)
  {
    if d < 10 then 0x30 + d else 0x41 + d - 10
  }

  /** The value of an ASCII hex digit, either case. */
  function HexValue(b: byte): (r: Option<nat>)
    ensures r.Some? ==> r.value < 16
  {
    if 0x30 <= b <= 0x39 then Some(b - 0x30)
    else if 0x41 <= b <= 0x46 then Some(b - 0x41 + 10)
    else if 0x61 <= b <= 0x66 then Some(b - 0x61 + 10)
    else None
  }

  /** One byte of a name or value: space becomes `+`, an unreserved byte stays,
      any other byte becomes `%` and two upper-case hex digits. */
  function EncodeByte(b: byte): (r: seq<byte>)
    ensures Ampersand !in r && EqualsSign !in r
    ensures forall k :: 0 <= k < |r| ==> r[k] < 0x80
  {
    if b == Space then [PlusSign]
    else if IsUnreserved(b) then [b]
    else [PercentSign, HexDigit(b / 16), HexDigit(b % 16)]
  }

  function PercentEncode(bs: seq<byte>): (r: seq<byte>)
    ensures Ampersand !in r && EqualsSign !in r
    ensures forall k :: 0 <= k < |r| ==> r[k] < 0x80
  {
    if bs == [] then [] else EncodeByte(bs[0]) + PercentEncode(bs[1..])
  }

  /** A name or a value, encoded as UTF-8 and then percent-encoded. */
  function EncodeComponent(s: string): seq<byte> {
    PercentEncode(Utf8.Encode(s))
  }

  function SerializePair(p: (string, string)): (r: seq<byte>)
    ensures Ampersand !in r && EqualsSign in r
  {
    EncodeComponent(p.0) + [EqualsSign] + EncodeComponent(p.1)
  }

  /** The serialized pairs, joined by `&`, as bytes. */
  function SerializeBytes(pairs: seq<(string, string)>): (r: seq<byte>)
    ensures forall k :: 0 <= k < |r| ==> r[k] < 0x80
  {
    if pairs == [] then []
    else if |pairs| == 1 then SerializePair(pairs[0])
    else SerializePair(pairs[0]) + [Ampersand] + SerializeBytes(pairs[1..])
  }

  /** The ASCII string spelled by bytes below 0x80. */
  function AsciiString(bs: seq<byte>): (r: string)
    requires forall k :: 0 <= k < |bs| ==> bs[k] < 0x80
    ensures |r| == |bs| && Utf8.IsAscii(r)
    ensures forall k :: 0 <= k < |r| ==> r[k] as int == bs[k]
  {
    if bs == [] then [] else [bs[0] as char] + AsciiString(bs[1..])
  }

  /** `URLSearchParams.toString()` of a list of name/value pairs. */
  function Serialize(pairs: seq<(string, string)>): string {
    AsciiString(SerializeBytes(pairs))
  }

  // ---------------------------------------------------------------------
  // The parser of section 5.1.

  /** Percent-decoding (URL Standard, section 1.3): `%` followed by two hex
      digits becomes that byte; every other byte, a lone `%` included, stays. */
  function PercentDecode(bs: seq<byte>): seq<byte> {
    if bs == [] then []
    else if bs[0] == PercentSign && |bs| >= 3 && HexValue(bs[1]).Some? && HexValue(bs[2]).Some? then
      [HexValue(bs[1]).value * 16 + HexValue(bs[2]).value] + PercentDecode(bs[3..])
    else [bs[0]] + PercentDecode(bs[1..])
  }

  function PlusToSpace(bs: seq<byte>): (r: seq<byte>)
    ensures |r| == |bs|
    ensures forall k :: 0 <= k < |bs| ==> r[k] == (if bs[k] == PlusSign then Space else bs[k])
  {
    if bs == [] then [] else [if bs[0] == PlusSign then Space else bs[0]] + PlusToSpace(bs[1..])
  }

  function DecodeComponent(bs: seq<byte>): string {
    Utf8.Decode(PercentDecode(PlusToSpace(bs)))
  }

  /** Strict split on a separator byte; `k` separators give `k + 1` pieces. */
  function Split(bs: seq<byte>, sep: byte): (r: seq<seq<byte>>)
    ensures |r| >= 1
  {
    if bs == [] then [[]]
    else if bs[0] == sep then [[]] + Split(bs[1..], sep)
    else
      var rest := Split(bs[1..], sep);
      [[bs[0]] + rest[0]] + rest[1..]
  }

  /** The bytes before the first `=` and those after it (all and none when
      there is no `=`). */
  function SplitName(bs: seq<byte>): (r: (seq<byte>, seq<byte>))
    ensures EqualsSign !in r.0
    ensures EqualsSign !in bs ==> r == (bs, [])
    ensures EqualsSign in bs ==> bs == r.0 + [EqualsSign] + r.1
  {
    if bs == [] then ([], [])
    else if bs[0] == EqualsSign then ([], bs[1..])
    else
      var (n, v) := SplitName(bs[1..]);
      assert [bs[0]] + bs[1..] == bs;
      ([bs[0]] + n, v)
  }

  function ParsePiece(bs: seq<byte>): (string, string) {
    var (n, v) := SplitName(bs);
    (DecodeComponent(n), DecodeComponent(v))
  }

  /** Empty pieces (from `&&`, or a leading or trailing `&`) are skipped. */
  function ParsePieces(pieces: seq<seq<byte>>): (r: seq<(string, string)>)
    ensures |r| <= |pieces|
  {
    if pieces == [] then []
    else if pieces[0] == [] then ParsePieces(pieces[1..])
    else [ParsePiece(pieces[0])] + ParsePieces(pieces[1..])
  }

  function ParseBytes(bs: seq<byte>): seq<(string, string)> {
    ParsePieces(Split(bs, Ampersand))
  }

  /** Parsing a query string given as text. */
  function Parse(s: string): seq<(string, string)> {
    ParseBytes(Utf8.Encode(s))
  }

  // ---------------------------------------------------------------------
  // Parsing undoes serializing.

  lemma {:induction false} PlusToSpaceAppend(a: seq<byte>, b: seq<byte>)
    ensures PlusToSpace(a + b) == PlusToSpace(a) + PlusToSpace(b)
  {
    assert |PlusToSpace(a + b)| == |PlusToSpace(a) + PlusToSpace(b)|;
  }

  /** One encoded byte, once `+` is read as a space, percent-decodes to itself. */
  lemma DecodeEncodedByte(b: byte, rest: seq<byte>)
    ensures PercentDecode(PlusToSpace(EncodeByte(b)) + rest) == [b] + PercentDecode(rest)
  {
    if b == Space {
      assert PlusToSpace(EncodeByte(b)) == [Space];
      assert ([Space] + rest)[1..] == rest;
    } else if IsUnreserved(b) {
      assert PlusToSpace(EncodeByte(b)) == [b];
      assert ([b] + rest)[1..] == rest;
    } else {
      var e := EncodeByte(b);
      assert PlusToSpace(e) == e;
      var hi, lo := b / 16, b % 16;
      assert HexValue(e[1]) == Some(hi) && HexValue(e[2]) == Some(lo);
      assert (e + rest)[3..] == rest;
    }
  }

  lemma {:induction false} DecodePercentEncode(bs: seq<byte>)
    ensures PercentDecode(PlusToSpace(PercentEncode(bs))) == bs
  {
    if bs != [] {
      var e := EncodeByte(bs[0]);
      PlusToSpaceAppend(e, PercentEncode(bs[1..]));
      DecodeEncodedByte(bs[0], PlusToSpace(PercentEncode(bs[1..])));
      DecodePercentEncode(bs[1..]);
    }
  }

  /** Every name and value survives its round trip. */
  lemma DecodeEncodeComponent(s: string)
    ensures DecodeComponent(EncodeComponent(s)) == s
  {
    DecodePercentEncode(Utf8.Encode(s));
    Utf8.DecodeEncode(s);
  }

  lemma {:induction false} SplitNoSeparator(p: seq<byte>, sep: byte)
    requires sep !in p
    ensures Split(p, sep) == [p]
  {
    if p != [] {
      SplitNoSeparator(p[1..], sep);
      assert [p[0]] + p[1..] == p;
    }
  }

  lemma {:induction false} SplitAtSeparator(p: seq<byte>, sep: byte, rest: seq<byte>)
    requires sep !in p
    ensures Split(p + [sep] + rest, sep) == [p] + Split(rest, sep)
  {
    if p == [] {
      assert p + [sep] + rest == [sep] + rest;
    } else {
      assert (p + [sep] + rest)[1..] == p[1..] + [sep] + rest;
      SplitAtSeparator(p[1..], sep, rest);
      assert [p[0]] + p[1..] == p;
    }
  }

  /** Splitting the serialization on `&` gives one piece per pair. */
  lemma {:induction false} SplitSerialized(pairs: seq<(string, string)>)
    requires pairs != []
    ensures Split(SerializeBytes(pairs), Ampersand) == SerializedPieces(pairs)
  {
    if |pairs| == 1 {
      SplitNoSeparator(SerializePair(pairs[0]), Ampersand);
    } else {
      SplitAtSeparator(SerializePair(pairs[0]), Ampersand, SerializeBytes(pairs[1..]));
      SplitSerialized(pairs[1..]);
    }
  }

  function SerializedPieces(pairs: seq<(string, string)>): (r: seq<seq<byte>>)
    ensures |r| == |pairs|
    ensures forall k :: 0 <= k < |pairs| ==> r[k] == SerializePair(pairs[k])
  {
    if pairs == [] then [] else [SerializePair(pairs[0])] + SerializedPieces(pairs[1..])
  }

  lemma ParseSerializedPair(p: (string, string))
    ensures ParsePiece(SerializePair(p)) == p
  {
    var n, v := EncodeComponent(p.0), EncodeComponent(p.1);
    assert SerializePair(p) == n + [EqualsSign] + v;
    SplitNameAt(n, v);
    DecodeEncodeComponent(p.0);
    DecodeEncodeComponent(p.1);
  }

  lemma {:induction false} SplitNameAt(n: seq<byte>, v: seq<byte>)
    requires EqualsSign !in n
    ensures SplitName(n + [EqualsSign] + v) == (n, v)
  {
    if n == [] {
      assert n + [EqualsSign] + v == [EqualsSign] + v;
    } else {
      assert (n + [EqualsSign] + v)[1..] == n[1..] + [EqualsSign] + v;
      SplitNameAt(n[1..], v);
      assert [n[0]] + n[1..] == n;
    }
  }

  lemma {:induction false} ParseSerializedPieces(pairs: seq<(string, string)>)
    ensures ParsePieces(SerializedPieces(pairs)) == pairs
  {
    if pairs != [] {
      assert SerializePair(pairs[0]) != [];
      ParseSerializedPair(pairs[0]);
      ParseSerializedPieces(pairs[1..]);
    }
  }

  /** Parsing the serialization gives back exactly the pairs, in order. */
  lemma ParseSerialize(pairs: seq<(string, string)>)
    ensures Parse(Serialize(pairs)) == pairs
  {
    var bs := SerializeBytes(pairs);
    AsciiBytes(bs);
    if pairs != [] {
      SplitSerialized(pairs);
      ParseSerializedPieces(pairs);
    }
  }

  lemma AsciiBytes(bs: seq<byte>)
    requires forall k :: 0 <= k < |bs| ==> bs[k] < 0x80
    ensures Utf8.Encode(AsciiString(bs)) == bs
  {
    Utf8.EncodeAscii(AsciiString(bs));
  }

  /** A name or value made of spaces and unreserved ASCII characters is
      encoded character by character, a space as `+`. */
  lemma {:induction false} EncodePlainComponent(s: string)
    requires forall k :: 0 <= k < |s| ==> s[k] == ' ' || (s[k] as int < 0x80 && IsUnreserved(s[k] as int))
    ensures |EncodeComponent(s)| == |s|
    ensures forall k :: 0 <= k < |s| ==>
      EncodeComponent(s)[k] == if s[k] == ' ' then PlusSign else s[k] as int
  {
    if s != [] {
      EncodePlainComponent(s[1..]);
      assert Utf8.Encode(s) == [s[0] as int] + Utf8.Encode(s[1..]);
      assert PercentEncode(Utf8.Encode(s)) == EncodeByte(s[0] as int) + PercentEncode(Utf8.Encode(s[1..]));
    }
  }

  /** Serializing is injective: different pair lists never share a query string. */
  lemma SerializeInjective(a: seq<(string, string)>, b: seq<(string, string)>)
    requires Serialize(a) == Serialize(b)
    ensures a == b
  {
    ParseSerialize(a);
    ParseSerialize(b);
  }

  /** One pair serializes to itself alone. */
  lemma BytesOfOnePair(p: (string, string))
    ensures SerializeBytes([p]) == SerializePair(p)
  {
  }

  /** Two pairs serialize to the first, `&`, then the second. */
  lemma BytesOfTwoPairs(p: (string, string), q: (string, string))
    ensures SerializeBytes([p, q]) == SerializePair(p) + [Ampersand] + SerializePair(q)
  {
    assert [p, q][1..] == [q];
  }

  lemma AsciiStringAppend(a: seq<byte>, b: seq<byte>)
    requires forall k :: 0 <= k < |a| ==> a[k] < 0x80
    requires forall k :: 0 <= k < |b| ==> b[k] < 0x80
    ensures AsciiString(a + b) == AsciiString(a) + AsciiString(b)
  {
    var ab := a + b;
    assert forall k :: 0 <= k < |ab| ==> ab[k] < 0x80 by {
      forall k | 0 <= k < |ab| ensures ab[k] < 0x80 {
        if k < |a| { assert ab[k] == a[k]; } else { assert ab[k] == b[k - |a|]; }
      }
    }
    var l, sa, sb := AsciiString(ab), AsciiString(a), AsciiString(b);
    forall k | 0 <= k < |l| ensures l[k] == (sa + sb)[k] {
      if k < |a| {
        assert l[k] as int == a[k] == sa[k] as int;
      } else {
        assert l[k] as int == b[k - |a|] == sb[k - |a|] as int;
      }
    }
    assert l == sa + sb;
  }

  /** Two pairs serialize as each of them, joined by `&`. */
  lemma SerializeTwoPairs(p: (string, string), q: (string, string))
    ensures Serialize([p, q]) == Serialize([p]) + "&" + Serialize([q])
  {
    BytesOfTwoPairs(p, q);
    BytesOfOnePair(p);
    BytesOfOnePair(q);
    var a, b := SerializeBytes([p]), SerializeBytes([q]);
    AsciiStringAppend(a, [Ampersand]);
    AsciiStringAppend(a + [Ampersand], b);
    AmpersandSpelled();
  }

  lemma AmpersandSpelled()
    ensures AsciiString([Ampersand]) == "&"
  {
  }

  /** A name or value made only of spaces and unreserved ASCII characters. */
  predicate IsPlain(s: string) {
    forall k :: 0 <= k < |s| ==> s[k] == ' ' || (s[k] as int < 0x80 && IsUnreserved(s[k] as int))
  }

  /** `s` with every space written as `+`. */
  function SpacesAsPlus(s: string): (r: string)
    ensures |r| == |s|
    ensures forall k :: 0 <= k < |s| ==> r[k] == if s[k] == ' ' then '+' else s[k]
  {
    if s == [] then [] else [if s[0] == ' ' then '+' else s[0]] + SpacesAsPlus(s[1..])
  }

  /** A pair of plain strings serializes as the name, `=` and the value, with
      spaces written as `+` and nothing percent-encoded. */
  lemma SerializePlainPair(name: string, value: string)
    requires IsPlain(name) && IsPlain(value)
    ensures Serialize([(name, value)]) == SpacesAsPlus(name) + "=" + SpacesAsPlus(value)
  {
    BytesOfOnePair((name, value));
    EncodePlainComponent(name);
    EncodePlainComponent(value);
    var bs := SerializePair((name, value));
    var r := Serialize([(name, value)]);
    var n, v := SpacesAsPlus(name), SpacesAsPlus(value);
    var t := n + "=" + v;
    forall k | 0 <= k < |r| ensures r[k] == t[k] {
      if k < |name| {
        assert r[k] as int == bs[k] == EncodeComponent(name)[k];
        assert t[k] == n[k];
      } else if k == |name| {
        assert r[k] as int == bs[k] == EqualsSign;
      } else {
        var j := k - |name| - 1;
        assert r[k] as int == bs[k] == EncodeComponent(value)[j];
        assert t[k] == v[j];
      }
    }
    assert r == t;
  }

  /** Without spaces, a plain pair serializes as the name, `=` and the value. */
  lemma SerializeUnspacedPair(name: string, value: string)
    requires IsPlain(name) && IsPlain(value)
    requires ' ' !in name && ' ' !in value
    ensures Serialize([(name, value)]) == name + "=" + value
  {
    SerializePlainPair(name, value);
    UnspacedUnchanged(name);
    UnspacedUnchanged(value);
  }

  /** A value of two plain words around one space serializes with a `+`. */
  lemma SerializeOneSpace(name: string, a: string, b: string)
    requires IsPlain(name) && IsPlain(a) && IsPlain(b)
    requires ' ' !in name && ' ' !in a && ' ' !in b
    ensures Serialize([(name, a + " " + b)]) == name + "=" + (a + "+" + b)
  {
    var value := a + " " + b;
    assert IsPlain(value) by {
      forall k | 0 <= k < |value|
        ensures value[k] == ' ' || (value[k] as int < 0x80 && IsUnreserved(value[k] as int))
      {
        if k < |a| { assert value[k] == a[k]; }
        else if k > |a| { assert value[k] == b[k - |a| - 1]; }
      }
    }
    SerializePlainPair(name, value);
    UnspacedUnchanged(name);
    var r, t := SpacesAsPlus(value), a + "+" + b;
    forall k | 0 <= k < |r| ensures r[k] == t[k] {
      if k < |a| { assert value[k] == a[k]; }
      else if k > |a| { assert value[k] == b[k - |a| - 1]; }
    }
    assert r == t;
  }

  lemma UnspacedUnchanged(s: string)
    requires ' ' !in s
    ensures SpacesAsPlus(s) == s
  {
  }

  /** A `URLSearchParams` object: its list of name-value pairs, appended to in
      place, and serialized by `toString()`. */
  class SearchParams {
    var list: seq<(string, string)>

    constructor ()
      ensures list == []
    {
      list := [];
    }

    /** `append(name, value)`: the pair goes at the end; none is replaced. */
    method Append(name: string, value: string)
      modifies this
      ensures list == old(list) + [(name, value)]
    {
      list := list + [(name, value)];
    }

    /** `toString()`. */
    function ToString(): string
      reads this
    {
      Serialize(list)
    }
  }
}
