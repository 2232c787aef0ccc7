/** Which cursors are accepted, what a statement request answers, and which rows a statement is made of. */
module StatementAnswers {
  import opened LedgerTypes
  import opened Reconciler
  import opened Statement
  import opened StatementPaging

  // ----- Cursors -----

  lemma {:induction false} UpToDotIs(s: string)
    ensures var p := UpToDot(s); '.' !in p && p <= s && (|p| < |s| ==> s[|p|] == '.')
  {
    if s != "" && s[0] != '.' {
      UpToDotIs(s[1..]);
      assert s == [s[0]] + s[1..];
    }
  }

  /** `value` is a payload and its own signature, with perhaps more after a further dot. */
  predicate Signed(codec: Codec, value: string, payload: string, tail: string) {
    && payload != "" && '.' !in payload
    && value == payload + "." + codec.sign(payload) + tail
    && (tail == "" || tail[0] == '.')
  }

  /** A signed value is split where it was put together. */
  lemma SignedSplits(codec: Codec, value: string, payload: string, tail: string)
    requires CodecOk(codec) && Signed(codec, value, payload, tail)
    ensures UpToDot(value) == payload
    ensures |payload| < |value| && UpToDot(value[|payload| + 1..]) == codec.sign(payload)
  {
    hide CodecOk;
    SignatureOk(codec, payload);
    SplitsAtDots(payload, codec.sign(payload), tail);
  }

  lemma SignatureOk(codec: Codec, payload: string)
    requires CodecOk(codec)
    ensures codec.sign(payload) != "" && '.' !in codec.sign(payload)
  {
  }

  lemma SplitsAtDots(payload: string, signature: string, tail: string)
    requires '.' !in payload && '.' !in signature && (tail == "" || tail[0] == '.')
    ensures var value := payload + "." + signature + tail;
            UpToDot(value) == payload && |payload| < |value| && UpToDot(value[|payload| + 1..]) == signature
  {
    hide UpToDot;
    var value := payload + "." + signature + tail;
    var rest := signature + tail;
    assert value == payload + ("." + rest);
    UpToDotStops(payload, "." + rest);
    assert value[|payload| + 1..] == rest;
    UpToDotStops(signature, tail);
  }

  ghost predicate Genuine(codec: Codec, value: string, c: KeysetCursor) {
    exists payload: string, tail: string :: Signed(codec, value, payload, tail) && codec.unpack(payload) == Some(c)
  }

  /** Only a signed payload is accepted, and only under the filters in it: neither position nor filters can be forged. */
  lemma CursorAcceptedExactly(codec: Codec, value: string, filters: string, c: KeysetCursor)
    requires CodecOk(codec)
    ensures DecodeCursor(codec, value, filters) == CursorOk(c) <==> Genuine(codec, value, c) && c.filters == filters
    ensures Genuine(codec, value, c) && c.filters != filters ==> DecodeCursor(codec, value, filters) == FiltersChanged
  {
    hide CodecOk, DecodeCursor, Signed;
    if DecodeCursor(codec, value, filters) == CursorOk(c) {
      AcceptedIsSigned(codec, value, filters, c);
    }
    if Genuine(codec, value, c) {
      var payload: string, tail: string :| Signed(codec, value, payload, tail) && codec.unpack(payload) == Some(c);
      SignedIsRead(codec, value, payload, tail, filters, c);
    }
  }

  lemma AcceptedIsSigned(codec: Codec, value: string, filters: string, c: KeysetCursor)
    requires DecodeCursor(codec, value, filters) == CursorOk(c)
    ensures Genuine(codec, value, c) && c.filters == filters
  {
    hide UpToDot;
    var payload := UpToDot(value);
    UpToDotIs(value);
    var rest := value[|payload| + 1..];
    var signature := UpToDot(rest);
    UpToDotIs(rest);
    var tail := rest[|signature|..];
    assert value == payload + "." + signature + tail;
    assert Signed(codec, value, payload, tail);
  }

  lemma SignedIsRead(codec: Codec, value: string, payload: string, tail: string, filters: string, c: KeysetCursor)
    requires CodecOk(codec) && Signed(codec, value, payload, tail) && codec.unpack(payload) == Some(c)
    ensures DecodeCursor(codec, value, filters) == if c.filters == filters then CursorOk(c) else FiltersChanged
  {
    hide CodecOk, Signed, UpToDot;
    SignedSplits(codec, value, payload, tail);
    SignatureOk(codec, payload);
    assert payload != "" by { PayloadSome(codec, value, payload, tail); }
  }

  lemma PayloadSome(codec: Codec, value: string, payload: string, tail: string)
    requires Signed(codec, value, payload, tail)
    ensures payload != ""
  {
  }

  /** A payload under any other signature is refused as badly signed. */
  lemma ForgeryRefused(codec: Codec, payload: string, signature: string, filters: string)
    requires payload != "" && '.' !in payload && signature != "" && '.' !in signature && signature != codec.sign(payload)
    ensures DecodeCursor(codec, payload + "." + signature, filters) == BadSignature
  {
    SplitsAtDots(payload, signature, "");
    assert payload + "." + signature == payload + "." + signature + "";
  }

  /** A request is refused exactly for an unknown account or, if there is a cursor, for a cursor that is not accepted. */
  lemma ListAnswers(codec: Codec, accountExists: bool, table: seq<Row>, request: Request, cursor: string, limit: nat)
    ensures var l := List(codec, accountExists, table, request, cursor, limit);
            var decoded := DecodeCursor(codec, cursor, request.filters);
            && (l.AccountNotFound? <==> !accountExists)
            && (l.InvalidCursor? <==> accountExists && cursor != "" && !decoded.CursorOk?)
            && (l.InvalidCursor? ==> l.reason == decoded)
  {
    hide DecodeCursor, ReadPage, EncodeCursor;
  }

  // ----- The statement -----

  /** A transaction of the account that moved money, dated within the period, both ends included. */
  predicate InStatement(request: Request, r: Row) {
    && r.environment == request.environment
    && r.accountId == request.accountId
    && r.date >= request.from && r.date <= request.to
    && (r.status == Settled || r.status == Reversed || r.status == PartiallyReversed)
  }

  /** When paging has ended, the rows received are the account's settled or reversed transactions of the period, latest first. */
  lemma StatementIsComplete(codec: Codec, table: seq<Row>, tables: seq<seq<Row>>, request: Request, limits: seq<nat>, n: nat)
    requires CodecOk(codec) && n <= |tables| && n <= |limits| && DistinctIds(table)
    requires (forall i | 0 <= i < |tables| :: tables[i] == table) && (forall i | 0 <= i < |limits| :: limits[i] > 0)
    ensures var w := Follow(codec, tables, request, limits, n);
            w.Finished? ==> Descending(w.rows) && forall r :: r in w.rows <==> r in table && InStatement(request, r)
  {
    hide CodecOk, Follow, Found, DistinctIds;
    PagingOverFixedTable(codec, table, tables, request, limits, n);
    FoundSpec(table, QueryOf(request), None);
    var all := Found(table, QueryOf(request), None);
    assert all[..|all|] == all;
  }
}
