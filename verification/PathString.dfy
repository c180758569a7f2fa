/**
  Bytes, and what counts as UTF-8: the syntax of section 4 of RFC 3629, and what
  decoding reports at the first place that does not follow it.
*/
module Utf8 {
  import opened Wrappers

  type byte = b: int | 0 <= b < 256

  type Bytes = seq<byte>

  /** How long a character starting with `lead` is; 0 when no character does. */
  function CharLen(lead: byte): nat {
    if lead < 0x80 then 1
    else if 0xC2 <= lead <= 0xDF then 2
    else if 0xE0 <= lead <= 0xEF then 3
    else if 0xF0 <= lead <= 0xF4 then 4
    else 0
  }

  predicate Tail(b: byte) {
    0x80 <= b <= 0xBF
  }

  /** The second byte's range is narrower after four of the leads. */
  predicate Second(lead: byte, b: byte) {
    && Tail(b)
    && (lead == 0xE0 ==> 0xA0 <= b)
    && (lead == 0xED ==> b <= 0x9F)
    && (lead == 0xF0 ==> 0x90 <= b)
    && (lead == 0xF4 ==> b <= 0x8F)
  }

  /** One whole character. */
  predicate IsChar(c: Bytes) {
    && c != []
    && CharLen(c[0]) == |c|
    && (|c| >= 2 ==> Second(c[0], c[1]))
    && (forall k :: 2 <= k < |c| ==> Tail(c[k]))
  }

  /** How many bytes at the front of `s` are a prefix of some character, at most a whole one. */
  function PrefixLen(s: Bytes): (n: nat)
    requires s != []
    ensures n <= |s| && n <= CharLen(s[0])
  {
    var n := CharLen(s[0]);
    if n == 0 then 0
    else if n == 1 || |s| < 2 || !Second(s[0], s[1]) then 1
    else if n == 2 || |s| < 3 || !Tail(s[2]) then 2
    else if n == 3 || |s| < 4 || !Tail(s[3]) then 3
    else 4
  }

  predicate StartsWithChar(s: Bytes) {
    s != [] && CharLen(s[0]) != 0 && PrefixLen(s) == CharLen(s[0])
  }

  /** The length found is that of the one character at the front, when there is one. */
  lemma StartsWithCharMeans(s: Bytes, n: nat)
    requires 0 < n <= |s|
    ensures IsChar(s[..n]) <==> StartsWithChar(s) && n == CharLen(s[0])
  {
    var c := s[..n];
    assert c[0] == s[0];
    assert n >= 2 ==> c[1] == s[1];
    assert n >= 3 ==> c[2] == s[2];
    assert n >= 4 ==> c[3] == s[3];
  }

  ghost predicate IsUtf8(s: Bytes) {
    s == [] || (StartsWithChar(s) && IsUtf8(s[CharLen(s[0])..]))
  }

  /** `Utf8Error::valid_up_to`, and the length when there is no error. */
  function ValidUpTo(s: Bytes): (n: nat)
    ensures n <= |s|
  {
    if !StartsWithChar(s) then 0
    else
      var n := CharLen(s[0]);
      n + ValidUpTo(s[n..])
  }

  /** Where the valid part stops, no character starts. */
  lemma {:induction false} InvalidAfter(s: Bytes)
    ensures var rest := s[ValidUpTo(s)..];
            rest != [] ==> !StartsWithChar(rest) && forall n :: 0 < n <= |rest| ==> !IsChar(rest[..n])
  {
    if StartsWithChar(s) {
      var n := CharLen(s[0]);
      InvalidAfter(s[n..]);
      assert s[n..][ValidUpTo(s[n..])..] == s[ValidUpTo(s)..];
    } else {
      assert s[0..] == s;
      forall n | 0 < n <= |s|
        ensures !IsChar(s[..n])
      {
        StartsWithCharMeans(s, n);
      }
    }
  }

  // ----- characters and their numbers, by section 3 of RFC 3629 -----

  /** A number a character has: not above U+10FFFF, and no surrogate. */
  predicate Scalar(n: nat) {
    n < 0xD800 || 0xE000 <= n < 0x11_0000
  }

  function Encoded(n: nat): Bytes
    requires Scalar(n)
  {
    if n < 0x80 then [n]
    else if n < 0x800 then [0xC0 + n / 64, 0x80 + n % 64]
    else if n < 0x1_0000 then [0xE0 + n / 4096, 0x80 + n / 64 % 64, 0x80 + n % 64]
    else [0xF0 + n / 262144, 0x80 + n / 4096 % 64, 0x80 + n / 64 % 64, 0x80 + n % 64]
  }

  lemma EncodedIsChar(n: nat)
    requires Scalar(n)
    ensures IsChar(Encoded(n))
  {
    if n >= 0x1_0000 {
      EncodedFour(n);
    } else if n >= 0x800 {
      EncodedThree(n);
    }
  }

  lemma EncodedThree(n: nat)
    requires Scalar(n) && 0x800 <= n < 0x1_0000
    ensures IsChar(Encoded(n))
  {
    var a, b, c := n / 4096, n / 64 % 64, n % 64;
    assert n == 4096 * a + 64 * b + c by { Rebuilt(n); }
    ThreeAreChar(n, a, b, c);
  }

  lemma Rebuilt(n: nat)
    ensures n == 4096 * (n / 4096) + 64 * (n / 64 % 64) + n % 64
    ensures n == 262144 * (n / 262144) + 4096 * (n / 4096 % 64) + 64 * (n / 64 % 64) + n % 64
  {
    assert n / 64 / 64 == n / 4096 && n / 4096 / 64 == n / 262144;
  }

  lemma ThreeAreChar(n: nat, a: nat, b: nat, c: nat)
    requires Scalar(n) && 0x800 <= n < 0x1_0000 && n == 4096 * a + 64 * b + c && b < 64 && c < 64
    ensures a < 16 && IsChar([0xE0 + a, 0x80 + b, 0x80 + c])
  {
  }

  lemma EncodedFour(n: nat)
    requires Scalar(n) && n >= 0x1_0000
    ensures IsChar(Encoded(n))
  {
    var a, b, c, d := n / 262144, n / 4096 % 64, n / 64 % 64, n % 64;
    assert n == 262144 * a + 4096 * b + 64 * c + d by { Rebuilt(n); }
    FourAreChar(n, a, b, c, d);
  }

  lemma FourAreChar(n: nat, a: nat, b: nat, c: nat, d: nat)
    requires 0x1_0000 <= n < 0x11_0000 && n == 262144 * a + 4096 * b + 64 * c + d && b < 64 && c < 64 && d < 64
    ensures a <= 4 && IsChar([0xF0 + a, 0x80 + b, 0x80 + c, 0x80 + d])
  {
  }

  lemma CharIsEncoded(c: Bytes) returns (n: nat)
    requires IsChar(c)
    ensures Scalar(n) && Encoded(n) == c
  {
    var lead: int := c[0];
    if |c| == 1 {
      n := lead;
    } else if |c| == 2 {
      var second: int := c[1];
      n := 64 * (lead - 0xC0) + (second - 0x80);
    } else if |c| == 3 {
      var second: int, third: int := c[1], c[2];
      n := 4096 * (lead - 0xE0) + 64 * (second - 0x80) + (third - 0x80);
      Digits3(lead - 0xE0, second - 0x80, third - 0x80);
    } else {
      var second: int, third: int, fourth: int := c[1], c[2], c[3];
      n := 262144 * (lead - 0xF0) + 4096 * (second - 0x80) + 64 * (third - 0x80) + (fourth - 0x80);
      Digits4(lead - 0xF0, second - 0x80, third - 0x80, fourth - 0x80);
    }
  }

  lemma Digits3(a: nat, b: nat, c: nat)
    requires b < 64 && c < 64
    ensures var n := 4096 * a + 64 * b + c;
            n / 4096 == a && n / 64 % 64 == b && n % 64 == c
  {
    assert (4096 * a + 64 * b + c) / 64 == 64 * a + b;
  }

  lemma Digits4(a: nat, b: nat, c: nat, d: nat)
    requires b < 64 && c < 64 && d < 64
    ensures var n := 262144 * a + 4096 * b + 64 * c + d;
            n / 262144 == a && n / 4096 % 64 == b && n / 64 % 64 == c && n % 64 == d
  {
    assert (262144 * a + 4096 * b + 64 * c + d) / 64 == 4096 * a + 64 * b + c;
    assert (262144 * a + 4096 * b + 64 * c + d) / 4096 == 64 * a + b;
  }

  /** What is taken for a character is the encoding of one, and of no surrogate, overlong or out of range. */
  lemma CharsExactly(c: Bytes)
    ensures IsChar(c) <==> exists n: nat :: Scalar(n) && Encoded(n) == c
  {
    if IsChar(c) {
      var n := CharIsEncoded(c);
    }
    if n: nat :| Scalar(n) && Encoded(n) == c {
      EncodedIsChar(n);
    }
  }

  /** `Utf8Error::error_len`, for what follows the valid part. */
  function ErrorLen(s: Bytes): (n: Option<nat>)
    requires s != [] && !StartsWithChar(s)
    ensures n.Some? ==> 0 < n.value <= |s|
  {
    var n := PrefixLen(s);
    if n == 0 then Some(1) else if n == |s| then None else Some(n)
  }
}

/** Names and paths held as strings without losing a byte. */
module PathString {
  import opened Wrappers
  import opened Utf8

  const MARKER: byte := 0x25
  const SLASH: byte := 0x2F
  const LOWEST_ESCAPABLE_BYTE: byte := 0x80

  datatype EscapeError =
    | Truncated
    | NotUppercaseHex
    | NotEscapable(byte: byte)

  // ----- what escaping means -----

  function HexDigit(n: int): byte
    requires 0 <= n < 16
  {
    if n < 10 then 0x30 + n else 0x41 + n - 10
  }

  function HexEscape(b: byte): (e: Bytes)
    ensures |e| == 3
  {
    [MARKER, HexDigit(b / 16), HexDigit(b % 16)]
  }

  function HexAll(s: Bytes): (e: Bytes)
    ensures |e| == 3 * |s|
  {
    if s == [] then [] else HexEscape(s[0]) + HexAll(s[1..])
  }

  function DoubleMarkers(s: Bytes): Bytes {
    if s == [] then []
    else (if s[0] == MARKER then [MARKER, MARKER] else [s[0]]) + DoubleMarkers(s[1..])
  }

  /** How many bytes at the front escape together: a character, or the bytes that begin one and never finish it. */
  function Step(s: Bytes): (n: nat)
    requires s != []
    ensures 0 < n <= |s|
    ensures StartsWithChar(s) ==> n == CharLen(s[0])
  {
    if PrefixLen(s) == 0 then 1 else PrefixLen(s)
  }

  /** A character goes through with its marker doubled; anything else goes byte by byte in hex. */
  function Piece(s: Bytes): Bytes
    requires s != []
  {
    if StartsWithChar(s) then DoubleMarkers(s[..Step(s)]) else HexAll(s[..Step(s)])
  }

  function Escaped(s: Bytes): Bytes {
    if s == [] then [] else Piece(s) + Escaped(s[Step(s)..])
  }

  function HexValue(digit: byte): Option<nat> {
    if 0x30 <= digit <= 0x39 then Some(digit - 0x30)
    else if 0x41 <= digit <= 0x46 then Some(digit - 0x41 + 10)
    else None
  }

  /** The byte an escape starting `s` stands for, `s[0]` being a marker that is not doubled. */
  function UnescapedByte(s: Bytes): Result<byte, EscapeError>
    requires |s| >= 2
  {
    if |s| < 3 then Err(Truncated)
    else if HexValue(s[1]).None? || HexValue(s[2]).None? then Err(NotUppercaseHex)
    else
      var b := 16 * HexValue(s[1]).value + HexValue(s[2]).value;
      if b < LOWEST_ESCAPABLE_BYTE then Err(NotEscapable(b)) else Ok(b)
  }

  function Prepend(head: Bytes, tail: Result<Bytes, EscapeError>): Result<Bytes, EscapeError> {
    match tail
    case Ok(bytes) => Ok(head + bytes)
    case Err(error) => Err(error)
  }

  function Unescaped(s: Bytes): Result<Bytes, EscapeError> {
    if s == [] then Ok([])
    else if s[0] != MARKER then Prepend([s[0]], Unescaped(s[1..]))
    else if |s| == 1 then Err(Truncated)
    else if s[1] == MARKER then Prepend([MARKER], Unescaped(s[2..]))
    else
      match UnescapedByte(s)
      case Err(error) => Err(error)
      case Ok(b) => Prepend([b], Unescaped(s[3..]))
  }

  // ----- the loops -----

  lemma {:induction false} DoubleMarkersConcat(a: Bytes, b: Bytes)
    ensures DoubleMarkers(a + b) == DoubleMarkers(a) + DoubleMarkers(b)
  {
    if a == [] {
      assert a + b == b;
    } else {
      assert (a + b)[1..] == a[1..] + b;
      DoubleMarkersConcat(a[1..], b);
    }
  }

  lemma {:induction false} DoubleMarkersPlain(s: Bytes)
    requires MARKER !in s
    ensures DoubleMarkers(s) == s
  {
    if s != [] {
      DoubleMarkersPlain(s[1..]);
    }
  }

  /** `str::split`: the runs between the markers, one more than there are markers. */
  function Split(s: Bytes): (runs: seq<Bytes>)
    ensures runs != []
    ensures forall run :: run in runs ==> MARKER !in run
  {
    if s == [] then [[]]
    else
      var rest := Split(s[1..]);
      if s[0] == MARKER then [[]] + rest
      else
        assert forall run :: run in rest[1..] ==> run in rest;
        assert rest[0] in rest;
        [[s[0]] + rest[0]] + rest[1..]
  }

  /** The runs put back together with doubled markers between them. */
  function Rejoined(runs: seq<Bytes>): Bytes {
    if runs == [] then [] else [MARKER, MARKER] + runs[0] + Rejoined(runs[1..])
  }

  lemma {:induction false} SplitRejoins(s: Bytes)
    ensures Split(s)[0] + Rejoined(Split(s)[1..]) == DoubleMarkers(s)
  {
    if s != [] {
      SplitRejoins(s[1..]);
      var rest := Split(s[1..]);
      if s[0] == MARKER {
        assert Split(s)[1..] == rest;
      } else {
        assert Split(s)[1..] == rest[1..];
      }
    }
  }

  lemma {:induction false} RejoinedSnoc(runs: seq<Bytes>, run: Bytes)
    ensures Rejoined(runs + [run]) == Rejoined(runs) + [MARKER, MARKER] + run
  {
    if runs != [] {
      assert (runs + [run])[1..] == runs[1..] + [run];
      RejoinedSnoc(runs[1..], run);
    }
  }

  method PushValid(buffer: Bytes, valid: Bytes) returns (escaped: Bytes)
    ensures escaped == buffer + DoubleMarkers(valid)
  {
    var runs := Split(valid);
    escaped := buffer + runs[0];
    var i := 1;
    while i < |runs|
      invariant 1 <= i <= |runs|
      invariant escaped == buffer + runs[0] + Rejoined(runs[1..i])
    {
      RejoinedSnoc(runs[1..i], runs[i]);
      assert runs[1..i] + [runs[i]] == runs[1..i + 1];
      escaped := escaped + [MARKER];
      escaped := escaped + [MARKER];
      escaped := escaped + runs[i];
      i := i + 1;
    }
    assert runs[1..i] == runs[1..];
    SplitRejoins(valid);
  }

  lemma Associate(a: Bytes, b: Bytes, c: Bytes)
    ensures a + (b + c) == a + b + c
  {
  }

  lemma Recut(s: Bytes, n: nat, m: nat)
    requires n + m <= |s|
    ensures s[..n] + s[n..][..m] == s[..n + m] && s[n..][m..] == s[n + m..]
  {
  }

  /** Everything up to the first error escapes as one run of characters. */
  lemma {:induction false} EscapedByRuns(s: Bytes)
    ensures var n := ValidUpTo(s);
            Escaped(s) == DoubleMarkers(s[..n]) + Escaped(s[n..])
  {
    if StartsWithChar(s) {
      var n, rest := CharLen(s[0]), s[CharLen(s[0])..];
      var m := ValidUpTo(rest);
      EscapedByRuns(rest);
      DoubleMarkersConcat(s[..n], rest[..m]);
      Recut(s, n, m);
      assert Piece(s) == DoubleMarkers(s[..n]);
      hide PrefixLen, CharLen, DoubleMarkers, Piece;
      Associate(DoubleMarkers(s[..n]), DoubleMarkers(rest[..m]), Escaped(rest[m..]));
    } else {
      hide Escaped, StartsWithChar;
      assert s[0..] == s && s[..0] == [];
    }
  }

  lemma {:induction false} HexAllConcat(a: Bytes, b: Bytes)
    ensures HexAll(a + b) == HexAll(a) + HexAll(b)
  {
    if a == [] {
      assert a + b == b;
    } else {
      assert (a + b)[1..] == a[1..] + b;
      HexAllConcat(a[1..], b);
    }
  }

  /** Writes each byte of an invalid run in hex. */
  method PushHex(buffer: Bytes, invalid: Bytes) returns (escaped: Bytes)
    ensures escaped == buffer + HexAll(invalid)
  {
    escaped := buffer;
    for i := 0 to |invalid|
      invariant escaped == buffer + HexAll(invalid[..i])
    {
      HexAllConcat(invalid[..i], [invalid[i]]);
      assert invalid[..i] + [invalid[i]] == invalid[..i + 1];
      assert HexAll([invalid[i]]) == HexEscape(invalid[i]) + HexAll([invalid[i]][1..]);
      escaped := escaped + [MARKER];
      escaped := escaped + [HexDigit(invalid[i] / 16)];
      escaped := escaped + [HexDigit(invalid[i] % 16)];
    }
    assert invalid[..|invalid|] == invalid;
  }

  /** One turn of the loop: the decodable run, then what the error covers. */
  lemma EscapedAtError(s: Bytes)
    requires ValidUpTo(s) < |s|
    ensures var n := ValidUpTo(s);
            var invalid := s[n..];
            && !StartsWithChar(invalid)
            && (if ErrorLen(invalid).Some? then ErrorLen(invalid).value else |invalid|) == Step(invalid)
            && Escaped(s) == DoubleMarkers(s[..n]) + HexAll(invalid[..Step(invalid)]) + Escaped(invalid[Step(invalid)..])
  {
    InvalidAfter(s);
    EscapedByRuns(s);
    hide IsUtf8, HexAll, DoubleMarkers, ValidUpTo;
    Associate(DoubleMarkers(s[..ValidUpTo(s)]), HexAll(s[ValidUpTo(s)..][..Step(s[ValidUpTo(s)..])]),
      Escaped(s[ValidUpTo(s)..][Step(s[ValidUpTo(s)..])..]));
  }

  lemma Regroup(a: Bytes, b: Bytes, c: Bytes, d: Bytes)
    ensures a + (b + c + d) == a + b + c + d
  {
  }

  method Escape(bytes: Bytes) returns (escaped: Bytes)
    ensures escaped == Escaped(bytes)
  {
    escaped := [];
    var rest := bytes;
    while ValidUpTo(rest) < |rest|
      invariant Escaped(bytes) == escaped + Escaped(rest)
      decreases |rest|
    {
      EscapedAtError(rest);
      ghost var before := escaped;
      var valid, invalid := rest[..ValidUpTo(rest)], rest[ValidUpTo(rest)..];
      escaped := PushValid(escaped, valid);
      var errorLen := ErrorLen(invalid);
      var invalidLen := if errorLen.Some? then errorLen.value else |invalid|;
      escaped := PushHex(escaped, invalid[..invalidLen]);
      Regroup(before, DoubleMarkers(valid), HexAll(invalid[..invalidLen]), Escaped(invalid[invalidLen..]));
      rest := invalid[invalidLen..];
    }
    EscapedByRuns(rest);
    assert rest[..|rest|] == rest && rest[|rest|..] == [];
    escaped := PushValid(escaped, rest);
  }

  lemma PrependTwice(a: Bytes, b: Bytes, r: Result<Bytes, EscapeError>)
    ensures Prepend(a, Prepend(b, r)) == Prepend(a + b, r)
  {
    if r.Ok? {
      assert a + (b + r.value) == (a + b) + r.value;
    }
  }

  method Unescape(escaped: Bytes) returns (result: Result<Bytes, EscapeError>)
    ensures result == Unescaped(escaped)
  {
    var bytes: Bytes := [];
    assert escaped[0..] == escaped;
    assert Unescaped(escaped).Ok? ==> bytes + Unescaped(escaped).value == Unescaped(escaped).value;
    var index := 0;
    while index < |escaped|
      invariant 0 <= index <= |escaped|
      invariant Unescaped(escaped) == Prepend(bytes, Unescaped(escaped[index..]))
    {
      ghost var rest := escaped[index..];
      if escaped[index] != MARKER {
        PrependTwice(bytes, [escaped[index]], Unescaped(rest[1..]));
        assert rest[1..] == escaped[index + 1..];
        bytes := bytes + [escaped[index]];
        index := index + 1;
        continue;
      }
      if index + 1 >= |escaped| {
        return Err(Truncated);
      }
      if escaped[index + 1] == MARKER {
        PrependTwice(bytes, [MARKER], Unescaped(rest[2..]));
        assert rest[2..] == escaped[index + 2..];
        bytes := bytes + [MARKER];
        index := index + 2;
      } else {
        if index + 3 > |escaped| {
          return Err(Truncated);
        }
        var high := HexValue(escaped[index + 1]);
        if high.None? {
          return Err(NotUppercaseHex);
        }
        var low := HexValue(escaped[index + 2]);
        if low.None? {
          return Err(NotUppercaseHex);
        }
        var b := 16 * high.value + low.value;
        if b < LOWEST_ESCAPABLE_BYTE {
          return Err(NotEscapable(b));
        }
        PrependTwice(bytes, [b], Unescaped(rest[3..]));
        assert rest[3..] == escaped[index + 3..];
        bytes := bytes + [b];
        index := index + 3;
      }
    }
    assert escaped[index..] == [] && bytes + [] == bytes;
    return Ok(bytes);
  }

  // ----- what the loops' specification keeps -----

  predicate AllHigh(s: Bytes) {
    forall k :: 0 <= k < |s| ==> s[k] >= LOWEST_ESCAPABLE_BYTE
  }

  lemma UnescapeHex(b: byte, rest: Bytes)
    requires b >= LOWEST_ESCAPABLE_BYTE
    ensures Unescaped(HexEscape(b) + rest) == Prepend([b], Unescaped(rest))
  {
    var s := HexEscape(b) + rest;
    assert s[3..] == rest;
    assert 16 * (b / 16) + b % 16 == b;
    assert HexValue(s[1]) == Some(b / 16) && HexValue(s[2]) == Some(b % 16);
  }

  lemma {:induction false} UnescapeHexAll(s: Bytes, rest: Bytes)
    requires AllHigh(s)
    ensures Unescaped(HexAll(s) + rest) == Prepend(s, Unescaped(rest))
  {
    if s == [] {
      assert HexAll(s) + rest == rest;
      PrependTwice([], [], Unescaped(rest));
      assert Unescaped(rest).Ok? ==> [] + Unescaped(rest).value == Unescaped(rest).value;
    } else {
      assert HexAll(s) + rest == HexEscape(s[0]) + (HexAll(s[1..]) + rest);
      UnescapeHex(s[0], HexAll(s[1..]) + rest);
      UnescapeHexAll(s[1..], rest);
      PrependTwice([s[0]], s[1..], Unescaped(rest));
      assert [s[0]] + s[1..] == s;
    }
  }

  lemma {:induction false} UnescapeDoubled(s: Bytes, rest: Bytes)
    ensures Unescaped(DoubleMarkers(s) + rest) == Prepend(s, Unescaped(rest))
  {
    if s == [] {
      assert DoubleMarkers(s) + rest == rest;
      assert Unescaped(rest).Ok? ==> [] + Unescaped(rest).value == Unescaped(rest).value;
    } else {
      var tail := DoubleMarkers(s[1..]) + rest;
      var head := if s[0] == MARKER then [MARKER, MARKER] else [s[0]];
      assert DoubleMarkers(s) + rest == head + tail;
      assert (head + tail)[|head|..] == tail;
      UnescapeDoubled(s[1..], rest);
      PrependTwice([s[0]], s[1..], Unescaped(rest));
      assert [s[0]] + s[1..] == s;
    }
  }

  /** Only bytes no ASCII character uses are written in hex. */
  lemma InvalidIsHigh(s: Bytes)
    requires s != [] && !StartsWithChar(s)
    ensures AllHigh(s[..Step(s)])
  {
  }

  /** Decoding undoes escaping, for every byte string. */
  lemma {:induction false} RoundTrip(s: Bytes)
    ensures Unescaped(Escaped(s)) == Ok(s)
  {
    if s != [] {
      var n := Step(s);
      RoundTrip(s[n..]);
      assert s[..n] + s[n..] == s;
      if StartsWithChar(s) {
        UnescapeDoubled(s[..n], Escaped(s[n..]));
      } else {
        InvalidIsHigh(s);
        UnescapeHexAll(s[..n], Escaped(s[n..]));
      }
    }
  }

  /** So no two byte strings share an escaped form. */
  lemma Injective(a: Bytes, b: Bytes)
    requires Escaped(a) == Escaped(b)
    ensures a == b
  {
    RoundTrip(a);
    RoundTrip(b);
  }

  lemma {:induction false} Utf8Concat(a: Bytes, b: Bytes)
    requires IsUtf8(a) && IsUtf8(b)
    ensures IsUtf8(a + b)
  {
    if a == [] {
      assert a + b == b;
    } else {
      var n := CharLen(a[0]);
      assert (a + b)[n..] == a[n..] + b;
      Utf8Concat(a[n..], b);
    }
  }

  lemma {:induction false} AsciiIsUtf8(s: Bytes)
    requires forall k :: 0 <= k < |s| ==> s[k] < 0x80
    ensures IsUtf8(s)
  {
    if s != [] {
      AsciiIsUtf8(s[1..]);
    }
  }

  lemma {:induction false} HexAllIsUtf8(s: Bytes)
    ensures IsUtf8(HexAll(s))
  {
    if s != [] {
      HexAllIsUtf8(s[1..]);
      AsciiIsUtf8(HexEscape(s[0]));
      Utf8Concat(HexEscape(s[0]), HexAll(s[1..]));
    }
  }

  lemma DoubledChar(s: Bytes)
    requires StartsWithChar(s)
    ensures var c := s[..CharLen(s[0])];
            DoubleMarkers(c) == if s[0] == MARKER then [MARKER, MARKER] else c
    ensures IsUtf8(DoubleMarkers(s[..CharLen(s[0])]))
  {
    var n := CharLen(s[0]);
    var c := s[..n];
    if s[0] == MARKER {
      assert c == [MARKER];
      assert DoubleMarkers(c[1..]) == [];
      AsciiIsUtf8([MARKER, MARKER]);
    } else {
      DoubleMarkersPlain(c);
      assert StartsWithChar(c) && c[n..] == [];
    }
  }

  /** The escaped form is a string: always UTF-8, whatever the bytes were. */
  lemma {:induction false} EscapedIsUtf8(s: Bytes)
    ensures IsUtf8(Escaped(s))
  {
    if s != [] {
      var n := Step(s);
      EscapedIsUtf8(s[n..]);
      if StartsWithChar(s) {
        DoubledChar(s);
        Utf8Concat(DoubleMarkers(s[..n]), Escaped(s[n..]));
      } else {
        HexAllIsUtf8(s[..n]);
        Utf8Concat(HexAll(s[..n]), Escaped(s[n..]));
      }
    }
  }

  lemma Cut(a: Bytes, b: Bytes, n: nat)
    requires n <= |a|
    ensures (a + b)[..n] == a[..n] && (a + b)[n..] == a[n..] + b
  {
  }

  lemma SameStep(a: Bytes, b: Bytes)
    requires a != [] && (b == [] || b[0] < 0x80)
    ensures Step(a + b) == Step(a) && (StartsWithChar(a + b) <==> StartsWithChar(a))
  {
  }

  /** What follows an ASCII byte cannot change how the bytes before it escape. */
  lemma {:induction false} EscapedConcat(a: Bytes, b: Bytes)
    requires b == [] || b[0] < 0x80
    ensures Escaped(a + b) == Escaped(a) + Escaped(b)
  {
    if a == [] {
      assert a + b == b;
    } else {
      SameStep(a, b);
      var n := Step(a);
      Cut(a, b, n);
      EscapedConcat(a[n..], b);
      assert Piece(a + b) == Piece(a);
      assert Escaped(a + b) == Piece(a) + Escaped(a[n..] + b) && Escaped(a) == Piece(a) + Escaped(a[n..]);
      hide StartsWithChar, Step, Piece, Escaped;
      Associate(Piece(a), Escaped(a[n..]), Escaped(b));
    }
  }

  /** Escaping a path is escaping what lies on either side of any separator in it. */
  lemma EscapedAtSeparator(a: Bytes, b: Bytes)
    ensures Escaped(a + [SLASH] + b) == Escaped(a) + [SLASH] + Escaped(b)
  {
    EscapedSlash(b);
    EscapedConcat(a, [SLASH] + b);
    hide *;
    Associate(a, [SLASH], b);
    Associate(Escaped(a), [SLASH], Escaped(b));
  }

  lemma EscapedSlash(b: Bytes)
    ensures Escaped([SLASH] + b) == [SLASH] + Escaped(b)
  {
    var s := [SLASH] + b;
    assert s[..1] == [SLASH] && s[1..] == b;
    assert DoubleMarkers(s[..1]) == [SLASH] + DoubleMarkers([]);
    assert Piece(s) == [SLASH];
  }

  // ----- paths -----

  /** Appends one name to a path, both escaped. */
  function Join(path: Bytes, name: Bytes): Bytes {
    if path == [] then name
    else if EndsInSeparator(path) then path + name
    else path + [SLASH] + name
  }

  predicate EndsInSeparator(path: Bytes) {
    path != [] && path[|path| - 1] == SLASH
  }

  /** One separator comes between a path and a name, whether or not the path ends in it, and none after no path. */
  lemma JoinSeparatesOnce(path: Bytes, name: Bytes)
    ensures Join([], name) == name
    ensures path != [] && !EndsInSeparator(path) ==>
              Join(path, name) == path + [SLASH] + name && Join(path + [SLASH], name) == Join(path, name)
  {
  }

  lemma {:induction false} EscapedEmptyOnly(s: Bytes)
    ensures Escaped(s) == [] <==> s == []
  {
    if s != [] {
      RoundTrip(s);
    }
  }

  /** The escaped form ends in a separator exactly when the path does. */
  lemma EscapedEndsInSeparator(s: Bytes)
    ensures EndsInSeparator(Escaped(s)) <==> EndsInSeparator(s)
  {
    if EndsInSeparator(s) {
      assert s == s[..|s| - 1] + [SLASH] + [];
      EscapedAtSeparator(s[..|s| - 1], []);
    } else if EndsInSeparator(Escaped(s)) {
      var e := Escaped(s);
      var init := e[..|e| - 1];
      assert e == init + [SLASH] + [];
      UnescapedAtSeparator(init, []);
      RoundTrip(s);
    }
  }

  lemma EscapedTrailing(s: Bytes)
    ensures Escaped(s + [SLASH]) == Escaped(s) + [SLASH]
  {
    EscapedAtSeparator(s, []);
    hide StartsWithChar;
    assert Escaped([]) == [];
    assert s + [SLASH] + [] == s + [SLASH];
  }

  lemma EscapedAfterSeparator(path: Bytes, name: Bytes)
    requires EndsInSeparator(path)
    ensures Escaped(path + name) == Escaped(path) + Escaped(name)
  {
    var init := path[..|path| - 1];
    hide *;
    assert path == init + [SLASH];
    EscapedTrailing(init);
    EscapedAtSeparator(init, name);
  }

  /** Joining the escaped halves is escaping the joined path, with neither decoded. */
  lemma JoinEscaped(path: Bytes, name: Bytes)
    ensures Join(Escaped(path), Escaped(name)) == Escaped(Join(path, name))
  {
    EscapedEmptyOnly(path);
    EscapedEndsInSeparator(path);
    var joined := Join(path, name);
    if path == [] {
      assert joined == name;
    } else if EndsInSeparator(path) {
      EscapedAfterSeparator(path, name);
      assert joined == path + name;
    } else {
      EscapedAtSeparator(path, name);
      assert joined == path + [SLASH] + name;
    }
  }

  /** A string is accepted exactly when both sides of any separator in it are, and it then decodes to their join:
      cutting an accepted path at separators never cuts an escape. */
  lemma {:induction false} UnescapedAtSeparator(a: Bytes, b: Bytes)
    ensures Unescaped(a + [SLASH] + b).Ok? <==> Unescaped(a).Ok? && Unescaped(b).Ok?
    ensures Unescaped(a).Ok? ==> Unescaped(a + [SLASH] + b) == Prepend(Unescaped(a).value + [SLASH], Unescaped(b))
  {
    var s := a + [SLASH] + b;
    if a == [] {
      assert s[1..] == b && Unescaped(a).value + [SLASH] == [SLASH];
    } else if |a| == 1 && a[0] == MARKER {
      assert s[1] == SLASH && HexValue(SLASH).None?;
    } else if |a| == 2 && a[0] == MARKER && a[1] != MARKER {
      assert s[2] == SLASH && HexValue(SLASH).None?;
    } else {
      var n := if a[0] != MARKER then 1 else if a[1] == MARKER then 2 else 3;
      assert s[n..] == a[n..] + [SLASH] + b;
      UnescapedAtSeparator(a[n..], b);
      if Unescaped(a).Ok? {
        var head := Unescaped(a).value[..1];
        assert Unescaped(a).value == head + Unescaped(a[n..]).value;
        PrependTwice(head, Unescaped(a[n..]).value + [SLASH], Unescaped(b));
        assert head + (Unescaped(a[n..]).value + [SLASH]) == Unescaped(a).value + [SLASH];
      }
    }
  }

  // ----- canonical spellings -----

  /** Whether an escape starts `s`: a marker that is not doubled, and two digits. */
  predicate StartsWithEscape(s: Bytes) {
    |s| >= 3 && s[0] == MARKER && s[1] != MARKER && UnescapedByte(s).Ok?
  }

  /** The bytes the escapes at the front of `s` stand for, up to the first that is not one. */
  function EscapedRun(s: Bytes): Bytes {
    if StartsWithEscape(s) then [UnescapedByte(s).value] + EscapedRun(s[3..]) else []
  }

  /** Whether some character is spelled wholly in escapes, which `Escape` would have copied through. */
  predicate SpellsCharInHex(s: Bytes) {
    if s == [] then false
    else if StartsWithEscape(s) then StartsWithChar(EscapedRun(s)) || SpellsCharInHex(s[3..])
    else if s[0] == MARKER && |s| >= 2 then SpellsCharInHex(s[2..])
    else SpellsCharInHex(s[1..])
  }

  /** A byte that cannot begin a character was written in hex: a string's own characters all begin with one that can. */
  lemma TailWasEscaped(s: Bytes)
    requires IsUtf8(s) && Unescaped(s).Ok?
    requires Unescaped(s).value != [] && Tail(Unescaped(s).value[0])
    ensures StartsWithEscape(s) && UnescapedByte(s).value == Unescaped(s).value[0]
    ensures IsUtf8(s[3..]) && Unescaped(s[3..]) == Ok(Unescaped(s).value[1..])
  {
    assert s != [];
    if s[0] == MARKER {
      EscapeIsThreeChars(s);
    }
  }

  /** After an escape the string goes on as UTF-8. */
  lemma EscapeIsThreeChars(s: Bytes)
    requires IsUtf8(s) && s != [] && s[0] == MARKER
    ensures IsUtf8(s[1..])
    ensures |s| >= 2 && s[1] == MARKER ==> IsUtf8(s[2..])
    ensures StartsWithEscape(s) ==> IsUtf8(s[3..])
  {
    if |s| >= 2 && s[1] < 0x80 {
      assert s[1..][1..] == s[2..] && IsUtf8(s[2..]);
      if |s| >= 3 && s[2] < 0x80 {
        assert s[2..][0] == s[2] && s[2..][1..] == s[3..];
      }
    }
  }

  /** An accepted escape is spelled the one way `HexEscape` spells it. */
  lemma HexSpelling(s: Bytes)
    requires StartsWithEscape(s)
    ensures s[..3] == HexEscape(UnescapedByte(s).value)
  {
    var h, l := HexValue(s[1]).value, HexValue(s[2]).value;
    assert (16 * h + l) / 16 == h && (16 * h + l) % 16 == l;
    assert HexDigit(h) == s[1] && HexDigit(l) == s[2];
  }

  /** What decoding one escape at the front leaves. */
  lemma AfterEscape(s: Bytes)
    requires StartsWithEscape(s) && Unescaped(s).Ok?
    ensures Unescaped(s).value != [] && Unescaped(s).value[0] == UnescapedByte(s).value
    ensures Unescaped(s[3..]) == Ok(Unescaped(s).value[1..])
    ensures s == HexEscape(Unescaped(s).value[0]) + s[3..]
  {
    HexSpelling(s);
    assert s == s[..3] + s[3..];
  }

  /** The first `n` bytes `s` decodes to, when all but the first cannot begin a character, were all escapes. */
  lemma {:induction false} RunWasEscaped(s: Bytes, b: Bytes, n: nat)
    requires IsUtf8(s) && Unescaped(s) == Ok(b) && StartsWithEscape(s)
    requires 1 <= n <= |b|
    requires forall k :: 1 <= k < n ==> Tail(b[k])
    ensures 3 * n <= |s| && s == HexAll(b[..n]) + s[3 * n..]
    ensures IsUtf8(s[3 * n..]) && Unescaped(s[3 * n..]) == Ok(b[n..])
  {
    hide PrefixLen, CharLen, HexAll, HexEscape, UnescapedByte, Unescaped, IsUtf8;
    EscapeIsThreeChars(s);
    AfterEscape(s);
    var rest, tail := s[3..], b[1..];
    if n > 1 {
      TailWasEscaped(rest);
      RunWasEscaped(rest, tail, n - 1);
      OneMoreEscape(b[0], tail[..n - 1], rest, rest[3 * (n - 1)..]);
    } else {
      OneMoreEscape(b[0], [], rest, rest);
    }
    Shifted(s, b, n);
  }

  lemma Shifted(s: Bytes, b: Bytes, n: nat)
    requires 1 <= n <= |b| && 3 * n <= |s|
    ensures s[3..][3 * (n - 1)..] == s[3 * n..] && b[1..][n - 1..] == b[n..]
    ensures [b[0]] + b[1..][..n - 1] == b[..n]
  {
  }

  /** The run of escapes goes as far as those bytes do. */
  lemma {:induction false} RunCovers(s: Bytes, b: Bytes, n: nat)
    requires IsUtf8(s) && Unescaped(s) == Ok(b) && StartsWithEscape(s)
    requires 1 <= n <= |b|
    requires forall k :: 1 <= k < n ==> Tail(b[k])
    ensures |EscapedRun(s)| >= n
  {
    EscapeIsThreeChars(s);
    AfterEscape(s);
    if n > 1 {
      TailWasEscaped(s[3..]);
      RunCovers(s[3..], b[1..], n - 1);
    }
  }

  lemma OneMoreEscape(first: byte, others: Bytes, rest: Bytes, after: Bytes)
    requires rest == HexAll(others) + after
    ensures HexEscape(first) + rest == HexAll([first] + others) + after
  {
    assert ([first] + others)[1..] == others;
  }

  /** A run of escapes is what the whole string decodes to, as far as the run goes. */
  lemma {:induction false} RunIsDecoded(s: Bytes)
    requires Unescaped(s).Ok?
    ensures EscapedRun(s) <= Unescaped(s).value
  {
    if StartsWithEscape(s) {
      RunIsDecoded(s[3..]);
    }
  }

  lemma StartsWithCharPrefix(a: Bytes, b: Bytes)
    requires a <= b && StartsWithChar(a)
    ensures StartsWithChar(b)
  {
    assert forall k :: 0 <= k < |a| ==> a[k] == b[k];
  }

  /** The escapes of an unfinished character spell no other character on the way. */
  lemma {:induction false} NoCharInside(s: Bytes, n: nat)
    requires Unescaped(s).Ok? && n <= |EscapedRun(s)|
    requires forall k :: 0 <= k < n ==> Tail(EscapedRun(s)[k])
    ensures 3 * n <= |s|
    ensures SpellsCharInHex(s) <==> SpellsCharInHex(s[3 * n..])
  {
    if n == 0 {
      assert s[0..] == s;
    } else {
      assert EscapedRun(s)[0] == UnescapedByte(s).value;
      assert forall k :: 0 <= k < n - 1 ==> EscapedRun(s[3..])[k] == EscapedRun(s)[k + 1];
      NoCharInside(s[3..], n - 1);
      assert s[3..][3 * (n - 1)..] == s[3 * n..];
    }
  }

  /**
    An accepted string is the one `Escape` would have written, exactly when no character in it is spelled wholly in
    escapes. Acceptance alone does not give it: see `AcceptedIsNotCanonical`.
  */
  lemma {:induction false} CanonicalExactly(s: Bytes)
    requires IsUtf8(s) && Unescaped(s).Ok?
    ensures Escaped(Unescaped(s).value) == s <==> !SpellsCharInHex(s)
    decreases |s|, 1
  {
    if s == [] {
    } else if s[0] != MARKER {
      CanonicalAfterChar(s);
    } else if s[1] == MARKER {
      CanonicalAfterMarker(s);
    } else {
      CanonicalAfterEscape(s, Unescaped(s).value);
    }
  }

  lemma {:induction false} CanonicalAfterMarker(s: Bytes)
    requires IsUtf8(s) && Unescaped(s).Ok? && |s| >= 2 && s[0] == s[1] == MARKER
    ensures Escaped(Unescaped(s).value) == s <==> !SpellsCharInHex(s)
    decreases |s|, 0
  {
    var b, rest := Unescaped(s).value, Unescaped(s[2..]).value;
    EscapeIsThreeChars(s);
    assert b[..1] == [MARKER] && b[1..] == rest;
    DoubledChar(b);
    CanonicalExactly(s[2..]);
    assert s == [MARKER, MARKER] + s[2..];
    assert Escaped(b) == [MARKER, MARKER] + Escaped(rest);
    assert Escaped(b)[2..] == Escaped(rest);
  }

  lemma {:induction false} CanonicalAfterEscape(s: Bytes, b: Bytes)
    requires IsUtf8(s) && Unescaped(s) == Ok(b) && StartsWithEscape(s)
    ensures Escaped(b) == s <==> !SpellsCharInHex(s)
    decreases |s|, 0
  {
    AfterEscape(s);
    RunIsDecoded(s);
    StepIsLeadAndTails(b);
    var n := Step(b);
    RunWasEscaped(s, b, n);
    RunCovers(s, b, n);
    if StartsWithChar(b) {
      HighCharCopied(b);
      assert StartsWithChar(b[..n]);
      StartsWithCharPrefix(b[..n], EscapedRun(s));
    } else {
      CanonicalExactly(s[3 * n..]);
      assert Escaped(b) == HexAll(b[..n]) + Escaped(b[n..]);
      assert Escaped(b)[3 * n..] == Escaped(b[n..]);
      if StartsWithChar(EscapedRun(s)) {
        StartsWithCharPrefix(EscapedRun(s), b);
      }
      SkipUnfinished(s, b, n);
    }
  }

  lemma StepIsLeadAndTails(b: Bytes)
    requires b != []
    ensures forall k :: 1 <= k < Step(b) ==> Tail(b[k])
  {
  }

  lemma HighCharCopied(b: Bytes)
    requires StartsWithChar(b) && b[0] >= 0x80
    ensures Escaped(b) != [] && Escaped(b)[0] == b[0]
    ensures StartsWithChar(b[..Step(b)])
  {
    DoubledChar(b);
  }

  /** The escapes of an unfinished character can be passed over. */
  lemma SkipUnfinished(s: Bytes, b: Bytes, n: nat)
    requires Unescaped(s) == Ok(b) && StartsWithEscape(s) && !StartsWithChar(EscapedRun(s))
    requires 1 <= n <= |b| && b[..n] <= EscapedRun(s)
    requires forall k :: 1 <= k < n ==> Tail(b[k])
    ensures 3 * n <= |s|
    ensures SpellsCharInHex(s) <==> SpellsCharInHex(s[3 * n..])
  {
    hide Unescaped, UnescapedByte, HexEscape, StartsWithChar, Tail;
    AfterEscape(s);
    TailsOfRun(EscapedRun(s), b, n);
    assert EscapedRun(s)[1..] == EscapedRun(s[3..]);
    NoCharInside(s[3..], n - 1);
    hide *;
    assert s[3..][3 * (n - 1)..] == s[3 * n..];
  }

  lemma TailsOfRun(run: Bytes, b: Bytes, n: nat)
    requires 1 <= n <= |b| && b[..n] <= run
    requires forall k :: 1 <= k < n ==> Tail(b[k])
    ensures n - 1 <= |run[1..]| && forall k :: 0 <= k < n - 1 ==> Tail(run[1..][k])
  {
    forall k | 0 <= k < n - 1
      ensures Tail(run[1..][k])
    {
      assert run[k + 1] == b[..n][k + 1];
    }
  }

  /** The case of a character copied through. */
  lemma {:induction false} CanonicalAfterChar(s: Bytes)
    requires IsUtf8(s) && Unescaped(s).Ok? && s != [] && s[0] != MARKER
    ensures Escaped(Unescaped(s).value) == s <==> !SpellsCharInHex(s)
    decreases |s|, 0
  {
    var b := Unescaped(s).value;
    var n := CharLen(s[0]);
    PlainCharDecodes(s, n);
    assert s[..n] + s[n..] == s && b == s[..n] + Unescaped(s[n..]).value;
    assert b[..n] == s[..n] && b[n..] == Unescaped(s[n..]).value;
    assert forall k :: 0 <= k < n ==> b[k] == s[k];
    DoubledChar(b);
    CanonicalExactly(s[n..]);
    assert Escaped(b)[n..] == Escaped(b[n..]);
  }

  lemma {:induction false} PlainCharDecodes(s: Bytes, n: nat)
    requires n <= |s| && MARKER !in s[..n]
    ensures Unescaped(s) == Prepend(s[..n], Unescaped(s[n..]))
    ensures SpellsCharInHex(s) <==> SpellsCharInHex(s[n..])
  {
    if n == 0 {
      assert s[0..] == s;
      assert Unescaped(s).Ok? ==> [] + Unescaped(s).value == Unescaped(s).value;
    } else {
      assert s[0] == s[..n][0];
      assert s[1..][..n - 1] == s[..n][1..];
      PlainCharDecodes(s[1..], n - 1);
      assert s[1..][n - 1..] == s[n..];
      PrependTwice([s[0]], s[1..][..n - 1], Unescaped(s[n..]));
      assert [s[0]] + s[1..][..n - 1] == s[..n];
    }
  }

  /** Everything `Escape` writes is accepted and spells no character in hex. */
  lemma EscapedIsCanonical(s: Bytes)
    ensures Unescaped(Escaped(s)).Ok? && !SpellsCharInHex(Escaped(s))
  {
    RoundTrip(s);
    EscapedIsUtf8(s);
    CanonicalExactly(Escaped(s));
  }

  /** `%C3%A9` is accepted, and is not how `Escape` spells the two bytes it decodes to. */
  lemma AcceptedIsNotCanonical()
    ensures var s := [0x25, 0x43, 0x33, 0x25, 0x41, 0x39];
            && IsUtf8(s)
            && Unescaped(s) == Ok([0xC3, 0xA9])
            && Escaped([0xC3, 0xA9]) == [0xC3, 0xA9]
  {
    var s: Bytes := [0x25, 0x43, 0x33, 0x25, 0x41, 0x39];
    AsciiIsUtf8(s);
    assert s == HexEscape(0xC3) + HexEscape(0xA9);
    UnescapeHex(0xC3, HexEscape(0xA9));
    assert HexEscape(0xA9) == HexEscape(0xA9) + [];
    UnescapeHex(0xA9, []);
    var c: Bytes := [0xC3, 0xA9];
    assert StartsWithChar(c);
    DoubledChar(c);
    assert c[..2] == c && c[2..] == [];
  }

  /** Escaping brings in no separator. */
  lemma {:induction false} EscapedSeparators(s: Bytes)
    ensures SLASH in Escaped(s) <==> SLASH in s
  {
    if s != [] {
      var n := Step(s);
      EscapedSeparators(s[n..]);
      PieceSeparators(s);
      assert Escaped(s) == Piece(s) + Escaped(s[n..]);
      hide Escaped, Piece, Step, StartsWithChar;
      assert s == s[..n] + s[n..];
    }
  }

  lemma PieceSeparators(s: Bytes)
    requires s != []
    ensures SLASH in Piece(s) <==> SLASH in s[..Step(s)]
  {
    if StartsWithChar(s) {
      DoubledSeparators(s[..Step(s)]);
    } else {
      InvalidIsHigh(s);
      HexSeparators(s[..Step(s)]);
    }
  }

  lemma {:induction false} DoubledSeparators(s: Bytes)
    ensures SLASH in DoubleMarkers(s) <==> SLASH in s
  {
    if s != [] {
      assert s == [s[0]] + s[1..];
      DoubledSeparators(s[1..]);
    }
  }

  lemma {:induction false} HexSeparators(s: Bytes)
    requires AllHigh(s)
    ensures SLASH !in HexAll(s) && SLASH !in s
  {
    if s != [] {
      assert s == [s[0]] + s[1..];
      HexSeparators(s[1..]);
    }
  }

  // ----- what it reads like -----

  const HEX_DIGITS: Bytes := [0x30, 0x31, 0x32, 0x33, 0x34, 0x35, 0x36, 0x37, 0x38, 0x39, 0x41, 0x42, 0x43, 0x44, 0x45, 0x46]

  /** Text reads as itself but for its percent signs, which are doubled. */
  lemma {:induction false} TextReadsAsItself(s: Bytes)
    requires IsUtf8(s)
    ensures Escaped(s) == DoubleMarkers(s)
    ensures 0x25 !in s ==> Escaped(s) == s
  {
    if s != [] {
      var n := CharLen(s[0]);
      TextReadsAsItself(s[n..]);
      DoubleMarkersConcat(s[..n], s[n..]);
      assert s[..n] + s[n..] == s;
    }
    if 0x25 !in s {
      DoubleMarkersPlain(s);
    }
  }

  /** A byte that is part of no character reads as a percent sign and two upper-case digits. */
  lemma StrayByteReadsAsHex(b: byte, rest: Bytes)
    requires PrefixLen([b] + rest) <= 1 && !StartsWithChar([b] + rest)
    ensures Escaped([b] + rest) == [0x25, HEX_DIGITS[b / 16], HEX_DIGITS[b % 16]] + Escaped(rest)
  {
    var s := [b] + rest;
    assert s[..1] == [b] && s[1..] == rest;
    assert HexAll([b]) == HexEscape(b) + HexAll([]);
    DigitIs(b / 16);
    DigitIs(b % 16);
  }

  lemma DigitIs(n: nat)
    requires n < 16
    ensures HexDigit(n) == HEX_DIGITS[n] && HexValue(HEX_DIGITS[n]) == Some(n)
  {
  }

  lemma DigitsExactly(d: byte)
    ensures HexValue(d).Some? <==> d in HEX_DIGITS
    ensures HexValue(d).Some? ==> HexValue(d).value < 16 && HEX_DIGITS[HexValue(d).value] == d
  {
    if d in HEX_DIGITS {
      var k :| 0 <= k < |HEX_DIGITS| && HEX_DIGITS[k] == d;
      DigitIs(k);
    }
  }

  /** Decoding goes on after what decodes by itself. */
  lemma {:induction false} DecodesOnwards(s: Bytes, rest: Bytes)
    requires Unescaped(s).Ok?
    ensures Unescaped(s + rest) == Prepend(Unescaped(s).value, Unescaped(rest))
    decreases |s|
  {
    if s == [] {
      assert s + rest == rest;
      assert Unescaped(rest).Ok? ==> [] + Unescaped(rest).value == Unescaped(rest).value;
    } else {
      var n, head := if s[0] != MARKER then 1 else if s[1] == MARKER then 2 else 3, DecodedFirst(s);
      DecodesFirst(s);
      assert s == s[..n] + s[n..];
      assert s + rest == s[..n] + (s[n..] + rest) && (s + rest)[n..] == s[n..] + rest;
      DecodesOnwards(s[n..], rest);
      DecodesFirst(s + rest);
      PrependTwice([head], Unescaped(s[n..]).value, Unescaped(rest));
      assert Unescaped(s).value == [head] + Unescaped(s[n..]).value;
      assert DecodedFirst(s + rest) == head;
    }
  }

  /** The byte the start of `s` stands for. */
  function DecodedFirst(s: Bytes): byte
    requires s != []
  {
    if s[0] != MARKER || |s| == 1 || s[1] == MARKER then s[0]
    else if UnescapedByte(s).Ok? then UnescapedByte(s).value else s[0]
  }

  lemma DecodesFirst(s: Bytes)
    requires s != []
    requires s[0] != MARKER || (|s| >= 2 && (s[1] == MARKER || UnescapedByte(s).Ok?))
    ensures var n := if s[0] != MARKER then 1 else if s[1] == MARKER then 2 else 3;
            n <= |s| && Unescaped(s) == Prepend([DecodedFirst(s)], Unescaped(s[n..]))
  {
  }

  /**
    Where decoding stops, and why: at the first percent sign that is neither doubled nor followed by two upper-case digits
    of a byte no ASCII character uses.
  */
  lemma StopsExactly(before: Bytes, rest: Bytes)
    requires Unescaped(before).Ok? && rest != [] && rest[0] == 0x25 && (|rest| >= 2 ==> rest[1] != 0x25)
    ensures |rest| < 3 ==> Unescaped(before + rest) == Err(Truncated)
    ensures |rest| >= 3 && (rest[1] !in HEX_DIGITS || rest[2] !in HEX_DIGITS) ==> Unescaped(before + rest) == Err(NotUppercaseHex)
    ensures forall b: byte :: |rest| >= 3 && rest[1] == HEX_DIGITS[b / 16] && rest[2] == HEX_DIGITS[b % 16] ==>
              Unescaped(before + rest)
              == if b < 0x80 then Err(NotEscapable(b)) else Prepend(Unescaped(before).value + [b], Unescaped(rest[3..]))
  {
    hide Unescaped, UnescapedByte, HexValue;
    DecodesOnwards(before, rest);
    if |rest| < 3 {
      StopsShort(rest);
    } else {
      DigitsExactly(rest[1]);
      DigitsExactly(rest[2]);
      EscapeDecodes(rest);
      forall b: byte | rest[1] == HEX_DIGITS[b / 16] && rest[2] == HEX_DIGITS[b % 16]
        ensures Unescaped(before + rest)
             == if b < 0x80 then Err(NotEscapable(b)) else Prepend(Unescaped(before).value + [b], Unescaped(rest[3..]))
      {
        EscapedByteIs(rest, b);
        PrependTwice(Unescaped(before).value, [b], Unescaped(rest[3..]));
      }
    }
  }

  lemma StopsShort(rest: Bytes)
    requires rest != [] && rest[0] == 0x25 && (|rest| >= 2 ==> rest[1] != 0x25) && |rest| < 3
    ensures Unescaped(rest) == Err(Truncated)
  {
  }

  lemma EscapeDecodes(rest: Bytes)
    requires |rest| >= 3 && rest[0] == 0x25 && rest[1] != 0x25
    ensures HexValue(rest[1]).None? || HexValue(rest[2]).None? ==> Unescaped(rest) == Err(NotUppercaseHex)
    ensures UnescapedByte(rest).Ok? ==> Unescaped(rest) == Prepend([UnescapedByte(rest).value], Unescaped(rest[3..]))
    ensures UnescapedByte(rest).Err? ==> Unescaped(rest) == Err(UnescapedByte(rest).error)
  {
  }

  lemma EscapedByteIs(rest: Bytes, b: byte)
    requires |rest| >= 3 && rest[1] == HEX_DIGITS[b / 16] && rest[2] == HEX_DIGITS[b % 16]
    ensures UnescapedByte(rest) == if b < 0x80 then Err(NotEscapable(b)) else Ok(b)
  {
    DigitIs(b / 16);
    DigitIs(b % 16);
    assert 16 * (b / 16) + b % 16 == b;
    hide HexValue;
  }
}
