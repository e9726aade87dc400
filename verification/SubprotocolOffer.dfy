/** The subprotocol offer on the wire: how the clients print it, how the conformance server
    (conformance/server/src/lib.rs) parses it and selects from it, and the client's check afterwards. */
module SubprotocolOffer {
  import opened Types
  import opened Subprotocol

  type Bytes = seq<Byte>

  const COMMA: Byte := 44
  const SPACE: Byte := 32
  const AMPERSAND: Byte := 38
  const EQUALS: Byte := 61

  /** The literals of the source, as bytes. */
  const FORCE_PROTOCOL: Bytes := [102, 111, 114, 99, 101, 45, 112, 114, 111, 116, 111, 99, 111, 108]
  const PROTOCOL: Bytes := [112, 114, 111, 116, 111, 99, 111, 108]
  const ECHO: Bytes := [101, 99, 104, 111]

  // ----- printing and parsing ----------------------------------------------------------------------------

  /** `join(", ")`. */
  function Join(list: seq<Bytes>): Bytes {
    if list == [] then []
    else if |list| == 1 then list[0]
    else list[0] + [COMMA, SPACE] + Join(list[1..])
  }

  /** The pieces between the separators; at least one, perhaps empty. */
  function Split(s: Bytes, separator: Byte): (r: seq<Bytes>)
    ensures |r| >= 1
  {
    if s == [] then [[]]
    else
      var rest := Split(s[1..], separator);
      if s[0] == separator then [[]] + rest else [[s[0]] + rest[0]] + rest[1..]
  }

  predicate IsSpace(b: Byte) { b == SPACE || 9 <= b <= 13 }

  function TrimStart(s: Bytes): Bytes { if s == [] || !IsSpace(s[0]) then s else TrimStart(s[1..]) }

  function TrimEnd(s: Bytes): Bytes { if s == [] || !IsSpace(s[|s| - 1]) then s else TrimEnd(s[..|s| - 1]) }

  function Trim(s: Bytes): Bytes { TrimEnd(TrimStart(s)) }

  function TrimAll(list: seq<Bytes>): seq<Bytes> {
    seq(|list|, i requires 0 <= i < |list| => Trim(list[i]))
  }

  /** The offer as the server reads it off the header values of a request. */
  function ParseOffer(headers: seq<Bytes>): seq<Bytes> {
    if headers == [] then [] else TrimAll(Split(headers[0], COMMA)) + ParseOffer(headers[1..])
  }

  /** The header values a client sends: one, unless it offers nothing. */
  function OfferHeaders(protocols: seq<Bytes>): seq<Bytes> {
    if protocols == [] then [] else [Join(protocols)]
  }

  lemma {:induction false} SplitPrefix(piece: Bytes, rest: Bytes, separator: Byte)
    requires separator !in piece
    ensures var tail := Split(rest, separator);
            Split(piece + rest, separator) == [piece + tail[0]] + tail[1..]
  {
    if piece == [] {
      var tail := Split(rest, separator);
      assert piece + rest == rest;
      assert piece + tail[0] == tail[0] && [tail[0]] + tail[1..] == tail;
    } else {
      assert (piece + rest)[0] == piece[0] && (piece + rest)[1..] == piece[1..] + rest;
      SplitPrefix(piece[1..], rest, separator);
      var tail := Split(rest, separator);
      assert [piece[0]] + (piece[1..] + tail[0]) == piece + tail[0];
    }
  }

  lemma SplitLast(piece: Bytes, separator: Byte)
    requires separator !in piece
    ensures Split(piece, separator) == [piece]
  {
    SplitPrefix(piece, [], separator);
    assert piece + [] == piece;
  }

  lemma SplitNext(piece: Bytes, rest: Bytes, separator: Byte)
    requires separator !in piece
    ensures Split(piece + [separator] + rest, separator) == [piece] + Split(rest, separator)
  {
    SplitPrefix(piece, [separator] + rest, separator);
    assert piece + [separator] + rest == piece + ([separator] + rest);
    assert ([separator] + rest)[1..] == rest;
    assert Split([separator] + rest, separator) == [[]] + Split(rest, separator);
    assert piece + [] == piece;
  }

  /** Tokens hold no separator and no space at either end, even after one space in front. */
  lemma TokenBytes(t: Bytes)
    requires ReferenceToken(t)
    ensures COMMA !in t && Trim(t) == t && Trim([SPACE] + t) == t
  {
    assert t[0] in t && t[|t| - 1] in t;
    assert ReferenceByte(t[0]) && ReferenceByte(t[|t| - 1]);
    assert ([SPACE] + t)[1..] == t;
    assert TrimStart([SPACE] + t) == TrimStart(t) == t;
    CommaIsNoToken();
  }

  lemma CommaIsNoToken()
    ensures !ReferenceByte(COMMA) && !ReferenceToken([])
  {
  }

  ghost predicate AllTokens(list: seq<Bytes>) { forall t <- list :: ReferenceToken(t) }

  lemma JoinMore(list: seq<Bytes>)
    requires |list| > 1
    ensures forall space :: space + Join(list) == (space + list[0]) + [COMMA] + ([SPACE] + Join(list[1..]))
  {
    var rest := Join(list[1..]);
    assert Join(list) == list[0] + [COMMA, SPACE] + rest;
    forall space
      ensures space + Join(list) == (space + list[0]) + [COMMA] + ([SPACE] + rest)
    {
      assert space + (list[0] + [COMMA, SPACE] + rest) == (space + list[0]) + [COMMA] + ([SPACE] + rest);
    }
  }

  lemma TrimAllCons(first: Bytes, pieces: seq<Bytes>)
    ensures TrimAll([first] + pieces) == [Trim(first)] + TrimAll(pieces)
  {
    hide Trim;
    var all := [first] + pieces;
    assert forall i :: 0 <= i < |pieces| ==> all[i + 1] == pieces[i];
  }

  lemma {:induction false} SplitJoin(space: Bytes, list: seq<Bytes>)
    requires list != [] && AllTokens(list) && (space == [] || space == [SPACE])
    ensures TrimAll(Split(space + Join(list), COMMA)) == list
    decreases |list|
  {
    hide Trim, Split, TrimAll;
    var t := list[0];
    assert t in list;
    TokenBytes(t);
    assert [] + t == t;
    var first := space + t;
    assert COMMA !in first;
    assert [first] + [] == [first];
    if |list| == 1 {
      SplitLast(first, COMMA);
      TrimAllCons(first, []);
      assert TrimAll([]) == [] by { NothingToTrim(); }
      assert list == [t] + [];
    } else {
      var rest := list[1..];
      SplitJoin([SPACE], rest);
      JoinMore(list);
      SplitNext(first, [SPACE] + Join(rest), COMMA);
      TrimAllCons(first, Split([SPACE] + Join(rest), COMMA));
      assert list == [t] + rest;
    }
  }

  lemma NothingToTrim()
    ensures TrimAll([]) == []
  {
  }

  /** Round trip (section 4.1 of RFC 6455): the server reads exactly the validated offer. */
  lemma OfferRoundTrip(protocols: seq<Bytes>)
    requires AllTokens(protocols)
    ensures ParseOffer(OfferHeaders(protocols)) == protocols
  {
    if protocols != [] {
      SplitJoin([], protocols);
      assert [] + Join(protocols) == Join(protocols);
      assert [Join(protocols)][1..] == [];
      assert ParseOffer([]) == [];
      assert protocols + [] == protocols;
    }
  }

  // ----- optional whitespace -----------------------------------------------------------------------------

  /** A token with spaces or tabs around it. */
  datatype Padded = Padded(before: Bytes, token: Bytes, after: Bytes) {
    function Text(): Bytes { before + token + after }
  }

  predicate Blank(s: Bytes) { forall b <- s :: b == SPACE || b == 9 }

  ghost predicate WellPadded(list: seq<Padded>) {
    forall p <- list :: Blank(p.before) && ReferenceToken(p.token) && Blank(p.after)
  }

  function PaddedHeader(list: seq<Padded>): Bytes {
    if list == [] then []
    else if |list| == 1 then list[0].Text()
    else list[0].Text() + [COMMA] + PaddedHeader(list[1..])
  }

  function Tokens(list: seq<Padded>): seq<Bytes> { seq(|list|, i requires 0 <= i < |list| => list[i].token) }

  lemma {:induction false} TrimBefore(before: Bytes, rest: Bytes)
    requires Blank(before)
    ensures TrimStart(before + rest) == TrimStart(rest)
  {
    if before == [] {
      assert before + rest == rest;
    } else {
      assert before[0] in before && (before + rest)[1..] == before[1..] + rest;
      assert forall b <- before[1..] :: b in before;
      TrimBefore(before[1..], rest);
    }
  }

  lemma {:induction false} TrimAfter(rest: Bytes, after: Bytes)
    requires Blank(after)
    ensures TrimEnd(rest + after) == TrimEnd(rest)
    decreases |after|
  {
    if after == [] {
      assert rest + after == rest;
    } else {
      var n := |after| - 1;
      assert after[n] in after && (rest + after)[..|rest| + n] == rest + after[..n];
      assert forall b <- after[..n] :: b in after;
      TrimAfter(rest, after[..n]);
    }
  }

  lemma PaddedPiece(p: Padded)
    requires Blank(p.before) && ReferenceToken(p.token) && Blank(p.after)
    ensures COMMA !in p.Text() && Trim(p.Text()) == p.token
  {
    TokenBytes(p.token);
    assert p.token[0] in p.token && ReferenceByte(p.token[0]);
    assert p.Text() == p.before + (p.token + p.after);
    TrimBefore(p.before, p.token + p.after);
    assert (p.token + p.after)[0] == p.token[0];
    TrimAfter(p.token, p.after);
  }

  lemma {:induction false} PaddedHeaderParses(list: seq<Padded>)
    requires list != [] && WellPadded(list)
    ensures TrimAll(Split(PaddedHeader(list), COMMA)) == Tokens(list)
    decreases |list|
  {
    hide Trim, Split, TrimAll;
    var p := list[0];
    assert p in list;
    PaddedPiece(p);
    assert [p.Text()] + [] == [p.Text()];
    if |list| == 1 {
      SplitLast(p.Text(), COMMA);
      TrimAllCons(p.Text(), []);
      assert TrimAll([]) == [] by { NothingToTrim(); }
    } else {
      var rest := list[1..];
      PaddedHeaderParses(rest);
      SplitNext(p.Text(), PaddedHeader(rest), COMMA);
      TrimAllCons(p.Text(), Split(PaddedHeader(rest), COMMA));
      assert Tokens(list) == [p.token] + Tokens(rest);
    }
  }

  function AllTokensOf(headers: seq<seq<Padded>>): seq<Bytes> {
    if headers == [] then [] else Tokens(headers[0]) + AllTokensOf(headers[1..])
  }

  /** The server reads every offer of tokens, over however many header lines and with whatever spaces and tabs around
      its commas (section 4.2 of RFC 2616 and section 4.1 of RFC 6455). */
  lemma {:induction false} AnyOfferParses(headers: seq<seq<Padded>>)
    requires forall h <- headers :: h != [] && WellPadded(h)
    ensures var lines := seq(|headers|, i requires 0 <= i < |headers| => PaddedHeader(headers[i]));
            ParseOffer(lines) == AllTokensOf(headers)
    decreases |headers|
  {
    hide Trim, Split, TrimAll, PaddedHeader;
    var lines := seq(|headers|, i requires 0 <= i < |headers| => PaddedHeader(headers[i]));
    if headers != [] {
      assert headers[0] in headers;
      PaddedHeaderParses(headers[0]);
      assert forall h <- headers[1..] :: h in headers;
      AnyOfferParses(headers[1..]);
      assert lines[1..] == seq(|headers| - 1, i requires 0 <= i < |headers| - 1 => PaddedHeader(headers[1..][i]));
    }
  }

  // ----- the query ---------------------------------------------------------------------------------------

  /** `split_once('=')`. */
  function SplitOnce(pair: Bytes): Option<(Bytes, Bytes)> {
    if pair == [] then None
    else if pair[0] == EQUALS then Some(([], pair[1..]))
    else
      match SplitOnce(pair[1..])
      case None => None
      case Some((k, v)) => Some(([pair[0]] + k, v))
  }

  function FindKey(pairs: seq<Bytes>, key: Bytes): Option<Bytes> {
    if pairs == [] then None
    else
      match SplitOnce(pairs[0])
      case Some((k, v)) => if k == key then Some(v) else FindKey(pairs[1..], key)
      case None => FindKey(pairs[1..], key)
  }

  function QueryParam(query: Bytes, key: Bytes): Option<Bytes> { FindKey(Split(query, AMPERSAND), key) }

  datatype Param = Param(key: Bytes, value: Bytes)

  predicate CleanParam(p: Param) { EQUALS !in p.key && AMPERSAND !in p.key && AMPERSAND !in p.value }

  function PrintQuery(params: seq<Param>): Bytes {
    if params == [] then []
    else
      var first := params[0].key + [EQUALS] + params[0].value;
      if |params| == 1 then first else first + [AMPERSAND] + PrintQuery(params[1..])
  }

  /** The value of the first parameter of that name. */
  function Lookup(params: seq<Param>, key: Bytes): Option<Bytes> {
    if params == [] then None
    else if params[0].key == key then Some(params[0].value)
    else Lookup(params[1..], key)
  }

  lemma {:induction false} SplitOnceInverts(k: Bytes, v: Bytes)
    requires EQUALS !in k
    ensures SplitOnce(k + [EQUALS] + v) == Some((k, v))
  {
    var pair := k + [EQUALS] + v;
    if k == [] {
      assert pair[0] == EQUALS && pair[1..] == v;
    } else {
      assert pair[0] == k[0] && pair[1..] == k[1..] + [EQUALS] + v;
      SplitOnceInverts(k[1..], v);
      assert [k[0]] + k[1..] == k;
    }
  }

  /** Reading a printed query gives the first value of each key. */
  lemma {:induction false} QueryRoundTrip(params: seq<Param>, key: Bytes)
    requires forall p <- params :: CleanParam(p)
    ensures QueryParam(PrintQuery(params), key) == Lookup(params, key)
    decreases |params|
  {
    if params == [] {
      var pieces := Split([], AMPERSAND);
      assert SplitOnce(pieces[0]) == None && pieces[1..] == [];
      assert FindKey([], key) == None;
    } else {
      var p := params[0];
      assert p in params && CleanParam(p);
      var first := p.key + [EQUALS] + p.value;
      SplitOnceInverts(p.key, p.value);
      if |params| == 1 {
        SplitLast(first, AMPERSAND);
        assert [first][1..] == [] && params[1..] == [];
        assert FindKey([], key) == Lookup([], key) == None;
      } else {
        SplitNext(first, PrintQuery(params[1..]), AMPERSAND);
        QueryRoundTrip(params[1..], key);
        assert ([first] + Split(PrintQuery(params[1..]), AMPERSAND))[1..] == Split(PrintQuery(params[1..]), AMPERSAND);
      }
    }
  }

  // ----- selection and check -----------------------------------------------------------------------------

  function Select(query: Bytes, offered: seq<Bytes>): Option<Bytes> {
    var force := QueryParam(query, FORCE_PROTOCOL);
    var want := QueryParam(query, PROTOCOL);
    if force.Some? then force
    else if want.Some? then (if want.value in offered then want else None)
    else if ECHO in offered then Some(ECHO)
    else None
  }

  /** The negotiated name the client reads: the response header, or empty. */
  function Negotiated(selected: Option<Bytes>): Bytes { if selected.Some? then selected.value else [] }

  datatype Check = Accepted | NoneSelected | NotOffered | NothingOffered

  /** The clients' check after the handshake. */
  function PostCheck(protocols: seq<Bytes>, negotiated: Bytes): Check {
    if protocols != [] && negotiated !in protocols then (if negotiated == [] then NoneSelected else NotOffered)
    else if protocols == [] && negotiated != [] then NothingOffered
    else Accepted
  }

  /** A connection attempt end to end. */
  function Attempt(protocols: seq<Bytes>, query: Bytes): Check {
    PostCheck(protocols, Negotiated(Select(query, ParseOffer(OfferHeaders(protocols)))))
  }

  /** For every validated offer and every printed query: without a forced name, the attempt succeeds exactly
      when nothing was offered, or the name the server wants (`echo` when the query names none) was; it never
      fails because of a name that was not offered. A forced name succeeds exactly when it was offered, or is
      empty with nothing offered; else the failure says whether anything was selected and anything offered. */
  lemma AttemptSucceedsIff(protocols: seq<Bytes>, params: seq<Param>)
    requires AllTokens(protocols) && forall p <- params :: CleanParam(p)
    ensures var force, want := Lookup(params, FORCE_PROTOCOL), Lookup(params, PROTOCOL);
            var outcome := Attempt(protocols, PrintQuery(params));
            if force.Some? then
              && (outcome.Accepted? <==> force.value in protocols || (protocols == [] && force.value == []))
              && (outcome.NothingOffered? <==> protocols == [] && force.value != [])
              && (outcome.NoneSelected? <==> protocols != [] && force.value == [])
            else
              var wanted := if want.Some? then want.value else ECHO;
              && (outcome.Accepted? <==> protocols == [] || wanted in protocols)
              && (!outcome.Accepted? ==> outcome.NoneSelected?)
  {
    OfferRoundTrip(protocols);
    QueryRoundTrip(params, FORCE_PROTOCOL);
    QueryRoundTrip(params, PROTOCOL);
    hide ParseOffer, OfferHeaders, QueryParam, PrintQuery, Lookup;
    CommaIsNoToken();
    assert [] !in protocols;
  }
}
