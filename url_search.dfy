/**
 * The part of the WHATWG URL Standard's `URLSearchParams` the Bitbucket client uses:
 * an ordered list of name-value pairs with `append`, `get`, `set` and the
 * application/x-www-form-urlencoded serialisation of `toString`.
 */
module UrlSearch {
  import opened Wrappers
  import opened Seqs
  import opened Text

  /** The code points the urlencoded serializer leaves as they are. */
  predicate IsUnreserved(c: char) {
    ('a' <= c <= 'z') || ('A' <= c <= 'Z') || ('0' <= c <= '9') || c == '*' || c == '-' || c == '.' || c == '_'
  }

  /** What can appear inside a serialized name or value. */
  predicate IsEncodedChar(c: char) {
    IsUnreserved(c) || c == '+' || c == '%'
  }

  predicate AllEncoded(s: string) {
    forall k :: 0 <= k < |s| ==> IsEncodedChar(s[k])
  }

  function HexDigit(d: nat): (c: char)
    requires d < 16
    ensures IsUnreserved(c)
  {
    if d < 10 then (d + '0' as int) as char else (d - 10 + 'A' as int) as char
  }

  /** The UTF-8 encoding of a Unicode scalar value. */
  function Utf8Bytes(c: char): (bytes: seq<nat>)
    ensures 1 <= |bytes| <= 4
    ensures forall k :: 0 <= k < |bytes| ==> bytes[k] < 256
  {
    var n := c as int;
    if n < 0x80 then [n]
    else if n < 0x800 then [0xC0 + n / 0x40, 0x80 + n % 0x40]
    else if n < 0x1_0000 then [0xE0 + n / 0x1000, 0x80 + n / 0x40 % 0x40, 0x80 + n % 0x40]
    else [0xF0 + n / 0x4_0000, 0x80 + n / 0x1000 % 0x40, 0x80 + n / 0x40 % 0x40, 0x80 + n % 0x40]
  }

  /** `%XY` for each byte, with upper-case hex digits. */
  function PercentBytes(bytes: seq<nat>): (e: string)
    requires forall k :: 0 <= k < |bytes| ==> bytes[k] < 256
    ensures |e| == 3 * |bytes|
    ensures AllEncoded(e)
  {
    if bytes == [] then []
    else ['%', HexDigit(bytes[0] / 16), HexDigit(bytes[0] % 16)] + PercentBytes(bytes[1..])
  }

  /** The value of an upper-case hex digit. */
  function HexValue(c: char): Option<nat> {
    if '0' <= c <= '9' then Some(c as int - '0' as int)
    else if 'A' <= c <= 'F' then Some(c as int - 'A' as int + 10)
    else None
  }

  /** Reads back a run of `%XY` triples as the bytes they stand for; `None` when the text is not such a run. */
  function PercentDecode(e: string): Option<seq<nat>>
    decreases |e|
  {
    if e == [] then Some([])
    else if |e| < 3 || e[0] != '%' || HexValue(e[1]).None? || HexValue(e[2]).None? then None
    else match PercentDecode(e[3..])
      case None => None
      case Some(rest) => Some([HexValue(e[1]).value * 16 + HexValue(e[2]).value] + rest)
  }

  lemma HexDigitValue(d: nat)
    requires d < 16
    ensures HexValue(HexDigit(d)) == Some(d)
  {
  }

  /** The two hex digits written for a byte read back as that byte. */
  lemma HexPair(b: nat)
    requires b < 256
    ensures HexValue(HexDigit(b / 16)).Some? && HexValue(HexDigit(b % 16)).Some?
    ensures HexValue(HexDigit(b / 16)).value * 16 + HexValue(HexDigit(b % 16)).value == b
  {
    HexDigitValue(b / 16);
    HexDigitValue(b % 16);
  }

  /** A valid `%XY` triple in front of decodable text decodes to its byte followed by the rest. */
  lemma DecodeTriple(hi: char, lo: char, tail: string, b: nat)
    requires HexValue(hi).Some? && HexValue(lo).Some? && HexValue(hi).value * 16 + HexValue(lo).value == b
    requires PercentDecode(tail).Some?
    ensures PercentDecode(['%', hi, lo] + tail) == Some([b] + PercentDecode(tail).value)
  {
    var e := ['%', hi, lo] + tail;
    assert |e| >= 3 && e[0] == '%' && e[1] == hi && e[2] == lo;
    assert e[3..] == tail;
  }

  /** Percent-decoding gives back the bytes that were percent-encoded. */
  lemma {:induction false} PercentRoundTrip(bytes: seq<nat>)
    requires forall k :: 0 <= k < |bytes| ==> bytes[k] < 256
    ensures PercentDecode(PercentBytes(bytes)) == Some(bytes)
  {
    if bytes != [] {
      var b, rest := bytes[0], bytes[1..];
      var hi, lo := HexDigit(b / 16), HexDigit(b % 16);
      HexPair(b);
      PercentRoundTrip(rest);
      DecodeTriple(hi, lo, PercentBytes(rest), b);
      assert PercentBytes(bytes) == ['%', hi, lo] + PercentBytes(rest);
      assert bytes == [b] + rest;
    }
  }

  /**
   * One code point, urlencoded: unreserved ones stay, a space becomes `+`, and every other
   * one becomes `%XY` triples that read back as its UTF-8 bytes.
   */
  function EncodeChar(c: char): (e: string)
    ensures e != [] && AllEncoded(e)
    ensures IsUnreserved(c) ==> e == [c]
    ensures c == ' ' ==> e == "+"
    ensures !IsUnreserved(c) && c != ' ' ==> e[0] == '%' && PercentDecode(e) == Some(Utf8Bytes(c))
  {
    if IsUnreserved(c) then [c]
    else if c == ' ' then "+"
    else
      PercentRoundTrip(Utf8Bytes(c));
      PercentBytes(Utf8Bytes(c))
  }

  /** A name or value, urlencoded. */
  function Encode(s: string): (e: string)
    ensures AllEncoded(e)
    ensures |s| <= |e|
  {
    if s == [] then [] else EncodeChar(s[0]) + Encode(s[1..])
  }

  function Pair(entry: (string, string)): string {
    Encode(entry.0) + "=" + Encode(entry.1)
  }

  function Pairs(entries: seq<(string, string)>): (pairs: seq<string>)
    ensures |pairs| == |entries|
    ensures forall i :: 0 <= i < |entries| ==> pairs[i] == Pair(entries[i])
  {
    seq(|entries|, i requires 0 <= i < |entries| => Pair(entries[i]))
  }

  /** `URLSearchParams.toString()`: the encoded pairs joined with `&`. */
  function Serialize(entries: seq<(string, string)>): string {
    Join(Pairs(entries), "&")
  }

  lemma {:induction false} JoinNonEmpty(parts: seq<string>, sep: string)
    requires |parts| >= 1 && parts[0] != []
    ensures Join(parts, sep) != []
  {
  }

  /** A serialized list of pairs is empty exactly when there are no pairs. */
  lemma SerializeEmptyIff(entries: seq<(string, string)>)
    ensures Serialize(entries) == [] <==> entries == []
  {
    if entries != [] {
      assert Pair(entries[0])[|Encode(entries[0].0)|] == '=';
      JoinNonEmpty(Pairs(entries), "&");
    }
  }

  lemma EncodedHasNo(s: string, c: char)
    requires AllEncoded(s) && !IsEncodedChar(c)
    ensures c !in s
  {
  }

  /** One encoded pair holds no `&`, and splitting it at `=` gives its encoded name and value. */
  lemma {:induction false} PairParses(entry: (string, string))
    ensures '&' !in Pair(entry)
    ensures Split(Pair(entry), "=") == [Encode(entry.0), Encode(entry.1)]
  {
    var n, v := Encode(entry.0), Encode(entry.1);
    EncodedHasNo(n, '&');
    EncodedHasNo(v, '&');
    EncodedHasNo(n, '=');
    EncodedHasNo(v, '=');
    assert Join([n, v], "=") == Pair(entry);
    SplitJoinChar([n, v], '=');
  }

  /**
   * The serialization can be taken apart again: splitting at `&` gives one piece per pair,
   * and splitting a piece at `=` gives the encoded name and value.
   */
  lemma {:induction false} SerializeParses(entries: seq<(string, string)>)
    requires entries != []
    ensures var pieces := Split(Serialize(entries), "&");
      && |pieces| == |entries|
      && forall i :: 0 <= i < |entries| ==> Split(pieces[i], "=") == [Encode(entries[i].0), Encode(entries[i].1)]
  {
    var pairs := Pairs(entries);
    forall k | 0 <= k < |pairs| ensures '&' !in pairs[k] && Split(pairs[k], "=") == [Encode(entries[k].0), Encode(entries[k].1)] {
      PairParses(entries[k]);
    }
    SplitJoinChar(pairs, '&');
  }

  /** The value of the first pair named `name`, `None` (`null`) when there is none. */
  function FirstValue(entries: seq<(string, string)>, name: string): (r: Option<string>)
    ensures r.None? <==> forall i :: 0 <= i < |entries| ==> entries[i].0 != name
    ensures r.Some? ==> exists i :: (0 <= i < |entries| && entries[i] == (name, r.value)
      && forall j :: 0 <= j < i ==> entries[j].0 != name)
  {
    if entries == [] then None
    else if entries[0].0 == name then Some(entries[0].1)
    else
      var r := FirstValue(entries[1..], name);
      if r.Some? then
        var i :| 0 <= i < |entries[1..]| && entries[1..][i] == (name, r.value)
          && forall j :: 0 <= j < i ==> entries[1..][j].0 != name;
        assert entries[i + 1] == (name, r.value);
        r
      else r
  }

  function NotNamed(name: string): ((string, string)) -> bool {
    (e: (string, string)) => e.0 != name
  }

  /** The pairs not named `name`. */
  function Others(entries: seq<(string, string)>, name: string): seq<(string, string)> {
    Filter(entries, NotNamed(name))
  }

  /**
   * `set(name, value)`: the first pair named `name` gets the value and the later ones are
   * removed; without such a pair, the pair is appended.
   */
  function WithSet(entries: seq<(string, string)>, name: string, value: string): seq<(string, string)> {
    if entries == [] then [(name, value)]
    else if entries[0].0 == name then [(name, value)] + Others(entries[1..], name)
    else [entries[0]] + WithSet(entries[1..], name, value)
  }

  /** After `set`, reading the name gives the new value. */
  lemma {:induction false} WithSetReadsBack(entries: seq<(string, string)>, name: string, value: string)
    ensures FirstValue(WithSet(entries, name, value), name) == Some(value)
  {
    if entries != [] && entries[0].0 != name {
      WithSetReadsBack(entries[1..], name, value);
      assert WithSet(entries, name, value)[1..] == WithSet(entries[1..], name, value);
    }
  }

  /** At most one pair carries the name. */
  predicate NamedAtMostOnce(entries: seq<(string, string)>, name: string) {
    forall i, j :: 0 <= i < |entries| && 0 <= j < |entries| && entries[i].0 == name && entries[j].0 == name ==> i == j
  }

  /** After `set`, exactly one pair carries the name. */
  lemma {:induction false} WithSetSingle(entries: seq<(string, string)>, name: string, value: string)
    ensures NamedAtMostOnce(WithSet(entries, name, value), name)
  {
    var r := WithSet(entries, name, value);
    if entries == [] {
    } else if entries[0].0 == name {
      var rest := Others(entries[1..], name);
      assert r[1..] == rest;
      forall i | 0 < i < |r| ensures r[i].0 != name {
        assert r[i] == rest[i - 1];
        assert rest[i - 1] in rest;
      }
    } else {
      var tail := WithSet(entries[1..], name, value);
      WithSetSingle(entries[1..], name, value);
      assert r[1..] == tail;
      forall i, j | 0 <= i < |r| && 0 <= j < |r| && r[i].0 == name && r[j].0 == name ensures i == j {
        assert r[0] == entries[0];
        assert i > 0 && j > 0;
        assert r[i] == tail[i - 1] && r[j] == tail[j - 1];
        assert tail[i - 1].0 == name && tail[j - 1].0 == name;
      }
    }
  }

  /** `set` leaves the pairs with other names untouched and in their order. */
  lemma {:induction false} WithSetKeepsOthers(entries: seq<(string, string)>, name: string, value: string)
    ensures Others(WithSet(entries, name, value), name) == Others(entries, name)
  {
    var r := WithSet(entries, name, value);
    if entries == [] {
    } else if entries[0].0 == name {
      assert r[1..] == Others(entries[1..], name);
      FilterIdempotent(entries[1..], NotNamed(name));
    } else {
      WithSetKeepsOthers(entries[1..], name, value);
      assert r[1..] == WithSet(entries[1..], name, value);
    }
  }

  /** `new URLSearchParams()` and the mutations the client makes on it. */
  class SearchParams {
    var entries: seq<(string, string)>

    constructor()
      ensures entries == []
    {
      entries := [];
    }

    /** `append(name, value)`. */
    method Append(name: string, value: string)
      modifies this
      ensures entries == old(entries) + [(name, value)]
    {
      entries := entries + [(name, value)];
    }

    /** `set(name, value)`. */
    method Set(name: string, value: string)
      modifies this
      ensures entries == WithSet(old(entries), name, value)
    {
      entries := WithSet(entries, name, value);
    }

    /** `get(name)`. */
    function Get(name: string): (r: Option<string>)
      reads this
      ensures r == FirstValue(entries, name)
    {
      FirstValue(entries, name)
    }

    /** `toString()`. */
    function ToString(): string
      reads this
    {
      Serialize(entries)
    }
  }
}
