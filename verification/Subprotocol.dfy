/** Subprotocol offers: the token validators, the offer's printer and parser, the server's selection and the
    client's check of it. */
module Subprotocol {
  import opened Types
  import opened Encodings

  // ----- tokens ------------------------------------------------------------------------------------------

  /** Section 2.2 of RFC 2616: a token is one or more US-ASCII characters other than controls and separators. */
  const SEPARATORS: set<int> :=
    {34, 40, 41, 44, 47, 58, 59, 60, 61, 62, 63, 64, 91, 92, 93, 123, 125, 32, 9}

  predicate IsTokenChar(n: int) { 32 <= n < 127 && n !in SEPARATORS }

  predicate IsToken(text: seq<Scalar>) { text != [] && forall c <- text :: IsTokenChar(c as int) }

  /** rust/wasmtime/src/websocket.rs */
  predicate ReferenceByte(b: Byte) {
    0x21 <= b <= 0x7e && (b as char) !in "\"(),/:;<=>?@[\\]{}"
  }

  predicate ReferenceToken(bytes: seq<Byte>) { bytes != [] && forall b <- bytes :: ReferenceByte(b) }

  /** rust/guest-provider/src/connect.rs */
  predicate GuestByte(b: Byte) {
    0x21 <= b <= 0x7e && (b as char) !in "()<>@,;:\\\"/[]?={} "
  }

  predicate GuestToken(bytes: seq<Byte>) { bytes != [] && forall b <- bytes :: GuestByte(b) }

  /** js/polyengine/websocket.ts and js/componentize/websocket.js */
  predicate JsUnit(u: Unit) {
    !(u <= 0x20 || u >= 0x7f) && (u as char) !in "\"(),/:;<=>?@[\\]{}"
  }

  method JsToken(units: seq<Unit>) returns (ok: bool)
    ensures ok <==> units != [] && forall u <- units :: JsUnit(u)
  {
    if |units| == 0 {
      return false;
    }
    var i := 0;
    while i < |units|
      invariant i <= |units| && forall k :: 0 <= k < i ==> JsUnit(units[k])
    {
      var c := units[i];
      assert c in units;
      if c <= 0x20 || c >= 0x7f {
        return false;
      }
      if (c as char) in "\"(),/:;<=>?@[\\]{}" {
        return false;
      }
      i := i + 1;
    }
    return true;
  }

  lemma SameCharacters(n: int)
    requires 0 <= n < 0x80
    ensures ReferenceByte(n as Byte) == GuestByte(n as Byte) == JsUnit(n as Unit) == IsTokenChar(n)
  {
  }

  /** A scalar below 0x80 is one equal byte and one equal unit; any other has only larger ones. */
  lemma CodesOf(c: Scalar)
    ensures c < 0x80 ==> Utf8Of(c) == [c as Byte] && Utf16Of(c) == [c as Unit]
    ensures c >= 0x80 ==> Utf8Of(c) != [] && (forall b <- Utf8Of(c) :: b >= 0x80)
                          && Utf16Of(c) != [] && (forall u <- Utf16Of(c) :: u >= 0x80)
  {
  }

  /** The Rust validators see bytes, the JavaScript ones units; all four accept exactly the tokens. */
  lemma ValidatorsAgree(text: seq<Scalar>)
    ensures ReferenceToken(Utf8(text)) <==> IsToken(text)
    ensures GuestToken(Utf8(text)) <==> IsToken(text)
    ensures JsIsToken(Utf16(text)) <==> IsToken(text)
  {
    forall c: Scalar
      ensures All(Utf8Of(c), ReferenceByte) == All(Utf8Of(c), GuestByte) == All(Utf16Of(c), JsUnit) == IsTokenScalar(c)
    {
      OneAgrees(c);
    }
    BytesAgree(text, ReferenceByte);
    BytesAgree(text, GuestByte);
    UnitsAgree(text);
    if text != [] {
      CodesOf(text[0]);
      assert Utf8(text) != [] && Utf16(text) != [];
    }
  }

  ghost predicate All<T>(list: seq<T>, p: T -> bool) { forall x <- list :: p(x) }

  predicate IsTokenScalar(c: Scalar) { IsTokenChar(c as int) }

  lemma {:induction false} BytesAgree(text: seq<Scalar>, p: Byte -> bool)
    requires forall c: Scalar :: All(Utf8Of(c), p) <==> IsTokenScalar(c)
    ensures All(Utf8(text), p) <==> All(text, IsTokenScalar)
  {
    if text != [] {
      BytesAgree(text[1..], p);
      AllConcat(Utf8Of(text[0]), Utf8(text[1..]), p);
      assert text == [text[0]] + text[1..];
      AllConcat([text[0]], text[1..], IsTokenScalar);
    }
  }

  lemma {:induction false} UnitsAgree(text: seq<Scalar>)
    requires forall c: Scalar :: All(Utf16Of(c), JsUnit) <==> IsTokenScalar(c)
    ensures All(Utf16(text), JsUnit) <==> All(text, IsTokenScalar)
  {
    if text != [] {
      UnitsAgree(text[1..]);
      AllConcat(Utf16Of(text[0]), Utf16(text[1..]), JsUnit);
      assert text == [text[0]] + text[1..];
      AllConcat([text[0]], text[1..], IsTokenScalar);
    }
  }

  lemma AllConcat<T>(a: seq<T>, b: seq<T>, p: T -> bool)
    ensures All(a + b, p) <==> All(a, p) && All(b, p)
  {
    assert forall x :: x in a + b <==> x in a || x in b;
  }

  lemma OneAgrees(c: Scalar)
    ensures All(Utf8Of(c), ReferenceByte) <==> IsTokenScalar(c)
    ensures All(Utf8Of(c), GuestByte) <==> IsTokenScalar(c)
    ensures All(Utf16Of(c), JsUnit) <==> IsTokenScalar(c)
  {
    CodesOf(c);
    if c < 0x80 {
      SameCharacters(c as int);
    } else {
      var bytes, units := Utf8Of(c), Utf16Of(c);
      assert bytes[0] in bytes && units[0] in units;
      assert !ReferenceByte(bytes[0]) && !GuestByte(bytes[0]) && !JsUnit(units[0]);
    }
  }

  // ----- validating an offer -----------------------------------------------------------------------------

  ghost predicate Distinct<T>(list: seq<T>) { forall i, j :: 0 <= i < j < |list| ==> list[i] != list[j] }

  datatype Verdict = Valid | NotAToken(index: nat) | Repeated(index: nat)

  /** The first entry that is not a token or repeats an earlier one. */
  ghost predicate VerdictFor<T>(list: seq<T>, isToken: T -> bool, v: Verdict) {
    match v
    case Valid => (forall i :: 0 <= i < |list| ==> isToken(list[i])) && Distinct(list)
    case NotAToken(k) =>
      k < |list| && !isToken(list[k]) && (forall i :: 0 <= i < k ==> isToken(list[i])) && Distinct(list[..k])
    case Repeated(k) =>
      k < |list| && list[k] in list[..k] && (forall i :: 0 <= i <= k ==> isToken(list[i])) && Distinct(list[..k])
  }

  lemma DistinctSnoc<T>(list: seq<T>, k: nat)
    requires k < |list| && Distinct(list[..k])
    ensures Distinct(list[..k + 1]) <==> list[k] !in list[..k]
  {
    assert list[..k + 1] == list[..k] + [list[k]];
    if list[k] in list[..k] {
      var i :| 0 <= i < k && list[..k][i] == list[k];
      assert list[..k + 1][i] == list[..k + 1][k];
    }
  }

  /** The Rust validators: tokens of the reference, or of the provider. */
  method ValidateProtocols(protocols: seq<seq<Byte>>, isToken: seq<Byte> -> bool) returns (v: Verdict)
    ensures VerdictFor(protocols, isToken, v)
  {
    var index := 0;
    while index < |protocols|
      invariant index <= |protocols| && Distinct(protocols[..index])
      invariant forall i :: 0 <= i < index ==> isToken(protocols[i])
    {
      if !isToken(protocols[index]) {
        return NotAToken(index);
      }
      DistinctSnoc(protocols, index);
      if protocols[index] in protocols[..index] {
        return Repeated(index);
      }
      index := index + 1;
    }
    assert protocols[..index] == protocols;
    return Valid;
  }

  predicate JsIsToken(units: seq<Unit>) { units != [] && forall u <- units :: JsUnit(u) }

  /** The index of the first occurrence. */
  method IndexOf(list: seq<seq<Unit>>, x: seq<Unit>) returns (k: nat)
    requires x in list
    ensures k < |list| && list[k] == x && x !in list[..k]
  {
    k := 0;
    while list[k] != x
      invariant k < |list| && x !in list[..k] && x in list[k..]
      decreases |list| - k
    {
      assert list[k..] == [list[k]] + list[k + 1..];
      assert list[..k + 1] == list[..k] + [list[k]];
      k := k + 1;
    }
  }

  /** The JavaScript host: an entry repeats when it is found before its own place. */
  method JsValidateProtocols(protocols: seq<seq<Unit>>) returns (v: Verdict)
    ensures VerdictFor(protocols, JsIsToken, v)
  {
    var i := 0;
    while i < |protocols|
      invariant i <= |protocols| && Distinct(protocols[..i])
      invariant forall k :: 0 <= k < i ==> JsIsToken(protocols[k])
    {
      var ok := JsToken(protocols[i]);
      if !ok {
        return NotAToken(i);
      }
      DistinctSnoc(protocols, i);
      var first := IndexOf(protocols, protocols[i]);
      if first != i {
        assert first < i ==> protocols[..i][first] == protocols[i];
        return Repeated(i);
      }
      i := i + 1;
    }
    assert protocols[..i] == protocols;
    return Valid;
  }

  function LowerUnit(u: Unit): Unit { if 'A' as Unit <= u <= 'Z' as Unit then u + 32 else u }

  predicate Uppercases(small: Unit, big: Unit) {
    'a' as Unit <= small <= 'z' as Unit && big as int == small as int - 32
  }

  /** Two units agree in lower case exactly when they are equal or one letter in two cases; tokens stay tokens. */
  lemma LowerExactly(u: Unit, v: Unit)
    ensures LowerUnit(u) == LowerUnit(v) <==> u == v || Uppercases(u, v) || Uppercases(v, u)
    ensures JsUnit(LowerUnit(u)) <==> JsUnit(u)
  {
  }

  /** `toLowerCase` on a token, which is US-ASCII. */
  function Lower(units: seq<Unit>): seq<Unit> { seq(|units|, i requires 0 <= i < |units| => LowerUnit(units[i])) }

  function LowerAll(list: seq<seq<Unit>>): seq<seq<Unit>> {
    seq(|list|, i requires 0 <= i < |list| => Lower(list[i]))
  }

  /** The shim compares lower-case forms, in a set. */
  method ShimValidateProtocols(protocols: seq<seq<Unit>>) returns (ok: bool)
    ensures ok <==> (forall i :: 0 <= i < |protocols| ==> JsIsToken(protocols[i])) && Distinct(LowerAll(protocols))
  {
    var seen: set<seq<Unit>> := {};
    ghost var lowered := LowerAll(protocols);
    var i := 0;
    while i < |protocols|
      invariant i <= |protocols| && Distinct(lowered[..i])
      invariant forall k :: 0 <= k < i ==> JsIsToken(protocols[k])
      invariant forall x :: x in seen <==> x in lowered[..i]
    {
      var protocol := protocols[i];
      var valid := JsToken(protocol);
      if !valid {
        return false;
      }
      var lower := Lower(protocol);
      DistinctSnoc(lowered, i);
      if lower in seen {
        ghost var k :| 0 <= k < i && lowered[..i][k] == lower;
        assert lowered[k] == lowered[i];
        return false;
      }
      seen := seen + {lower};
      assert lowered[..i + 1] == lowered[..i] + [lower];
      i := i + 1;
    }
    assert lowered[..i] == lowered;
    return true;
  }

  /** What the shim accepts, the host behind it accepts; the host also takes entries that differ in case
      only, which the shim refuses. */
  lemma ShimIsStricter(protocols: seq<seq<Unit>>)
    ensures Distinct(LowerAll(protocols)) ==> Distinct(protocols)
    ensures Distinct([['a' as Unit], ['A' as Unit]]) && !Distinct(LowerAll([['a' as Unit], ['A' as Unit]]))
  {
    if Distinct(LowerAll(protocols)) {
      forall i, j | 0 <= i < j < |protocols|
        ensures protocols[i] != protocols[j]
      {
        assert LowerAll(protocols)[i] != LowerAll(protocols)[j];
      }
    }
    var pair := [['a' as Unit], ['A' as Unit]];
    assert pair[0][0] != pair[1][0];
    assert LowerAll(pair)[0] == LowerAll(pair)[1];
  }

  /** A token's encodings are its codes, so equal only when the tokens are. */
  lemma {:induction false} TokenCodes(text: seq<Scalar>)
    requires All(text, IsTokenScalar)
    ensures |Utf8(text)| == |Utf16(text)| == |text|
    ensures forall i :: 0 <= i < |text| ==>
              text[i] < 0x80 && Utf8(text)[i] == text[i] as Byte && Utf16(text)[i] == text[i] as Unit
  {
    if text != [] {
      var c, rest := text[0], text[1..];
      assert c in text && IsTokenScalar(c) && c < 0x80;
      assert forall d <- rest :: d in text;
      CodesOf(c);
      hide Utf8Of, Utf16Of, IsTokenScalar;
      TokenCodes(rest);
      assert Utf8(text) == [c as Byte] + Utf8(rest) && Utf16(text) == [c as Unit] + Utf16(rest);
    }
  }

  lemma EncodingsAreInjective(a: seq<Scalar>, b: seq<Scalar>)
    requires IsToken(a) && IsToken(b)
    ensures Utf8(a) == Utf8(b) <==> a == b
    ensures Utf16(a) == Utf16(b) <==> a == b
  {
    assert All(a, IsTokenScalar) && All(b, IsTokenScalar);
    TokenCodes(a);
    TokenCodes(b);
    if Utf8(a) == Utf8(b) || Utf16(a) == Utf16(b) {
      forall i | 0 <= i < |a|
        ensures a[i] == b[i]
      {
        assert a[i] in a && b[i] in b;
        assert Utf8(a)[i] == a[i] as Byte && Utf8(b)[i] == b[i] as Byte;
        assert Utf16(a)[i] == a[i] as Unit && Utf16(b)[i] == b[i] as Unit;
      }
    }
  }

  /** A verdict depends on which entries are tokens and which tokens are equal. */
  lemma VerdictsTransfer<S, T>(a: seq<S>, b: seq<T>, p: S -> bool, q: T -> bool, v: Verdict)
    requires |a| == |b| && forall i :: 0 <= i < |a| ==> (p(a[i]) <==> q(b[i]))
    requires forall i, j :: 0 <= i < |a| && 0 <= j < |a| && p(a[i]) && p(a[j]) ==> (a[i] == a[j] <==> b[i] == b[j])
    ensures VerdictFor(a, p, v) ==> VerdictFor(b, q, v)
  {
    if VerdictFor(a, p, v) && v.Repeated? {
      var k := v.index;
      var i :| 0 <= i < k && a[..k][i] == a[k];
      assert b[..k][i] == b[k];
    }
  }

  /** For every list of texts, the four validators' verdicts on its encodings are its verdict: the Rust ones
      and the JavaScript host's agree entry by entry. */
  lemma OffersAgree(texts: seq<seq<Scalar>>, bytes: seq<seq<Byte>>, units: seq<seq<Unit>>, v: Verdict)
    requires |bytes| == |units| == |texts|
    requires forall i :: 0 <= i < |texts| ==> bytes[i] == Utf8(texts[i]) && units[i] == Utf16(texts[i])
    ensures VerdictFor(bytes, ReferenceToken, v) <==> VerdictFor(texts, IsToken, v)
    ensures VerdictFor(bytes, GuestToken, v) <==> VerdictFor(texts, IsToken, v)
    ensures VerdictFor(units, JsIsToken, v) <==> VerdictFor(texts, IsToken, v)
  {
    forall i | 0 <= i < |texts|
      ensures ReferenceToken(bytes[i]) == GuestToken(bytes[i]) == JsIsToken(units[i]) == IsToken(texts[i])
    {
      ValidatorsAgree(texts[i]);
    }
    forall i, j | 0 <= i < |texts| && 0 <= j < |texts| && IsToken(texts[i]) && IsToken(texts[j])
      ensures (bytes[i] == bytes[j] <==> texts[i] == texts[j]) && (units[i] == units[j] <==> texts[i] == texts[j])
    {
      EncodingsAreInjective(texts[i], texts[j]);
    }
    hide VerdictFor, ReferenceToken, GuestToken, JsIsToken, IsToken;
    VerdictsTransfer(bytes, texts, ReferenceToken, IsToken, v);
    VerdictsTransfer(texts, bytes, IsToken, ReferenceToken, v);
    VerdictsTransfer(bytes, texts, GuestToken, IsToken, v);
    VerdictsTransfer(texts, bytes, IsToken, GuestToken, v);
    VerdictsTransfer(units, texts, JsIsToken, IsToken, v);
    VerdictsTransfer(texts, units, IsToken, JsIsToken, v);
  }

  /** And there is only one verdict. */
  lemma OneVerdict<T>(list: seq<T>, p: T -> bool, v: Verdict, w: Verdict)
    requires VerdictFor(list, p, v) && VerdictFor(list, p, w)
    ensures v == w
  {
    if v.Repeated? {
      RepeatIsThere(list, v.index);
    }
    if w.Repeated? {
      RepeatIsThere(list, w.index);
    }
  }

  lemma RepeatIsThere<T>(list: seq<T>, k: nat)
    requires k < |list| && list[k] in list[..k]
    ensures !Distinct(list) && forall j :: k < j <= |list| ==> !Distinct(list[..j])
  {
    var i :| 0 <= i < k && list[..k][i] == list[k];
    assert list[i] == list[k];
    forall j | k < j <= |list|
      ensures !Distinct(list[..j])
    {
      assert list[..j][i] == list[..j][k];
    }
  }
}
