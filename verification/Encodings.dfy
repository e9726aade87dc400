/** The encodings of Unicode text in use: UTF-8 bytes and UTF-16 units (RFC 3629 and RFC 2781). */
module Encodings {
  import opened Types

  /** A Unicode scalar value. */
  newtype Scalar = c: int | 0 <= c < 0xD800 || 0xE000 <= c < 0x110000

  newtype Unit = u: int | 0 <= u < 0x10000

  function Utf8Of(c: Scalar): seq<Byte> {
    var n := c as int;
    if n < 0x80 then [n as Byte]
    else if n < 0x800 then [(0xC0 + n / 0x40) as Byte, (0x80 + n % 0x40) as Byte]
    else if n < 0x10000 then
      [(0xE0 + n / 0x1000) as Byte, (0x80 + n / 0x40 % 0x40) as Byte, (0x80 + n % 0x40) as Byte]
    else
      [(0xF0 + n / 0x40000) as Byte, (0x80 + n / 0x1000 % 0x40) as Byte,
       (0x80 + n / 0x40 % 0x40) as Byte, (0x80 + n % 0x40) as Byte]
  }

  function Utf8(text: seq<Scalar>): seq<Byte> {
    if text == [] then [] else Utf8Of(text[0]) + Utf8(text[1..])
  }

  function Utf16Of(c: Scalar): seq<Unit> {
    var n := c as int;
    if n < 0x10000 then [n as Unit]
    else [(0xD800 + (n - 0x10000) / 0x400) as Unit, (0xDC00 + (n - 0x10000) % 0x400) as Unit]
  }

  function Utf16(text: seq<Scalar>): seq<Unit> {
    if text == [] then [] else Utf16Of(text[0]) + Utf16(text[1..])
  }

  /** A scalar's units: itself below U+10000, else a high and a low surrogate that carry it. */
  lemma Utf16Exactly(c: Scalar)
    ensures var units, n := Utf16Of(c), c as int;
            if n < 0x10000 then |units| == 1 && units[0] as int == n
            else
              && |units| == 2 && 0xD800 <= units[0] < 0xDC00 <= units[1] < 0xE000
              && n == 0x10000 + (units[0] as int - 0xD800) * 0x400 + (units[1] as int - 0xDC00)
  {
    var m := c as int - 0x10000;
    if m >= 0 {
      assert m == m / 0x400 * 0x400 + m % 0x400 && m / 0x400 < 0x400;
    }
  }

  // ----- strict decoding ---------------------------------------------------------------------------------

  predicate Trail(bytes: seq<Byte>, i: nat) { i < |bytes| && 0x80 <= bytes[i] < 0xC0 }

  function Low(b: Byte): int { b as int - 0x80 }

  /** The scalar at the front and its width; nothing on an overlong form, a surrogate or a stray byte. */
  function First(bytes: seq<Byte>): (r: Option<(Scalar, nat)>)
    ensures r.Some? ==> 0 < r.value.1 <= |bytes|
  {
    if bytes == [] then None
    else
      var b := bytes[0] as int;
      if b < 0x80 then Some((b as Scalar, 1))
      else if 0xC2 <= b < 0xE0 && Trail(bytes, 1) then Some((((b - 0xC0) * 0x40 + Low(bytes[1])) as Scalar, 2))
      else if 0xE0 <= b < 0xF0 && Trail(bytes, 1) && Trail(bytes, 2) then
        var n := (b - 0xE0) * 0x1000 + Low(bytes[1]) * 0x40 + Low(bytes[2]);
        if n < 0x800 || 0xD800 <= n < 0xE000 then None else Some((n as Scalar, 3))
      else if 0xF0 <= b < 0xF5 && Trail(bytes, 1) && Trail(bytes, 2) && Trail(bytes, 3) then
        var n := (b - 0xF0) * 0x40000 + Low(bytes[1]) * 0x1000 + Low(bytes[2]) * 0x40 + Low(bytes[3]);
        if n < 0x10000 || n >= 0x110000 then None else Some((n as Scalar, 4))
      else None
  }

  function Decode(bytes: seq<Byte>): Option<seq<Scalar>>
    decreases |bytes|
  {
    if bytes == [] then Some([])
    else
      match First(bytes)
      case None => None
      case Some((c, width)) =>
        match Decode(bytes[width..])
        case None => None
        case Some(rest) => Some([c] + rest)
  }

  lemma FirstDecodes(c: Scalar, rest: seq<Byte>)
    ensures First(Utf8Of(c) + rest) == Some((c, |Utf8Of(c)|))
  {
    var n := c as int;
    var bytes := Utf8Of(c) + rest;
    assert forall i :: 0 <= i < |Utf8Of(c)| ==> bytes[i] == Utf8Of(c)[i];
    SplitDigits(n);
  }

  lemma Quotients(n: nat)
    ensures n / 0x1000 == n / 0x40 / 0x40 && n / 0x40000 == n / 0x40 / 0x1000
  {
  }

  /** A number is its base 64 digits. */
  lemma SplitDigits(n: nat)
    ensures n == n / 0x40 * 0x40 + n % 0x40
    ensures n == n / 0x1000 * 0x1000 + n / 0x40 % 0x40 * 0x40 + n % 0x40
    ensures n == n / 0x40000 * 0x40000 + n / 0x1000 % 0x40 * 0x1000 + n / 0x40 % 0x40 * 0x40 + n % 0x40
  {
    var m := n / 0x40;
    var k := m / 0x40;
    Quotients(n);
    Quotients(m);
    assert n == m * 0x40 + n % 0x40 && m == k * 0x40 + m % 0x40 && k == k / 0x40 * 0x40 + k % 0x40;
    assert k == n / 0x1000 && k / 0x40 == n / 0x40000;
  }

  lemma {:induction false} DecodeUtf8(text: seq<Scalar>)
    ensures Decode(Utf8(text)) == Some(text)
  {
    if text != [] {
      FirstDecodes(text[0], Utf8(text[1..]));
      DecodeUtf8(text[1..]);
      assert Utf8(text)[|Utf8Of(text[0])|..] == Utf8(text[1..]);
      assert [text[0]] + text[1..] == text;
    }
  }

  /** Base 64 digits. */
  lemma Digits(high: int, low: int)
    requires 0 <= low < 0x40
    ensures (high * 0x40 + low) / 0x40 == high && (high * 0x40 + low) % 0x40 == low
  {
  }

  lemma ThreeDigits(a: int, b: int, c: int, d: int)
    requires 0 <= b < 0x40 && 0 <= c < 0x40 && 0 <= d < 0x40
    ensures var n := a * 0x40000 + b * 0x1000 + c * 0x40 + d;
            n / 0x40000 == a && n / 0x1000 % 0x40 == b && n / 0x40 % 0x40 == c && n % 0x40 == d
            && n / 0x1000 == a * 0x40 + b
  {
    var high := a * 0x40 + b;
    Digits(a, b);
    Digits(high, c);
    Digits(high * 0x40 + c, d);
  }

  lemma FirstEncodes(bytes: seq<Byte>)
    requires First(bytes).Some?
    ensures Utf8Of(First(bytes).value.0) == bytes[..First(bytes).value.1]
  {
    var c, width := First(bytes).value.0, First(bytes).value.1;
    if width == 2 {
      Digits(bytes[0] as int - 0xC0, Low(bytes[1]));
    } else if width == 3 {
      ThreeDigits(0, bytes[0] as int - 0xE0, Low(bytes[1]), Low(bytes[2]));
    } else if width == 4 {
      ThreeDigits(bytes[0] as int - 0xF0, Low(bytes[1]), Low(bytes[2]), Low(bytes[3]));
    }
  }

  /** Strict decoding, `String::from_utf8`, accepts exactly the encodings, and inverts them. */
  lemma {:induction false} DecodedReencodes(bytes: seq<Byte>)
    requires Decode(bytes).Some?
    ensures Utf8(Decode(bytes).value) == bytes
    decreases |bytes|
  {
    if bytes != [] {
      DecodeStep(bytes);
      FirstEncodes(bytes);
      hide First, Utf8Of, Decode, Utf8;
      var (c, width) := First(bytes).value;
      DecodedReencodes(bytes[width..]);
      Utf8Cons(c, Decode(bytes[width..]).value);
    } else {
      assert Decode([]) == Some([]);
    }
  }

  /** Decoding is decoding the first scalar, then the rest. */
  lemma DecodeStep(bytes: seq<Byte>)
    requires bytes != [] && Decode(bytes).Some?
    ensures First(bytes).Some? && Decode(bytes[First(bytes).value.1..]).Some?
    ensures Decode(bytes) == Some([First(bytes).value.0] + Decode(bytes[First(bytes).value.1..]).value)
  {
    hide First;
  }

  lemma Utf8Cons(c: Scalar, rest: seq<Scalar>)
    ensures Utf8([c] + rest) == Utf8Of(c) + Utf8(rest)
  {
    hide Utf8Of;
    assert ([c] + rest)[1..] == rest;
  }

  // ----- the platform's decoder --------------------------------------------------------------------------

  /** U+FEFF, which as the first scalar of a text is a byte order mark. */
  const MARK: Scalar := 0xFEFF

  predicate StartsWithMark(bytes: seq<Byte>) { [0xEF, 0xBB, 0xBF] <= bytes }

  /** `TextDecoder` with `fatal` and without `ignoreBOM` (WHATWG Encoding Standard, "Interface TextDecoder"):
      strict decoding, and one leading byte order mark is dropped. */
  function TextDecoder(bytes: seq<Byte>): Option<seq<Scalar>> {
    match Decode(bytes)
    case None => None
    case Some(text) => Some(if text != [] && text[0] == MARK then text[1..] else text)
  }

  /** It accepts what strict decoding accepts; what it returns encodes the bytes without a leading mark. */
  lemma {:induction false} TextDecoderExactly(bytes: seq<Byte>)
    ensures TextDecoder(bytes).Some? <==> Decode(bytes).Some?
    ensures TextDecoder(bytes).Some? ==>
              Utf8(TextDecoder(bytes).value) == if StartsWithMark(bytes) then bytes[3..] else bytes
  {
    if Decode(bytes).Some? && bytes != [] {
      var text := Decode(bytes).value;
      DecodedReencodes(bytes);
      assert Utf8(text) == Utf8Of(text[0]) + Utf8(text[1..]);
      assert Utf8Of(MARK) == [0xEF, 0xBB, 0xBF];
      if StartsWithMark(bytes) {
        var rest := bytes[3..];
        assert bytes == Utf8Of(MARK) + rest;
        FirstDecodes(MARK, rest);
      }
    }
  }
}
