/**
 The paged statement: `PrismaTransactionRepository.statement`, `StatementService.list` and the signed
 cursor of apps/api/src/pix/cursor.ts.
 */
module Statement {
  import opened LedgerTypes
  import opened Reconciler
  import opened Sequences

  datatype Environment = Homologation | Production

  /** A stored transaction; `date` is its effective date, counted in days. */
  datatype Row = Row(environment: Environment, accountId: Id, status: TransactionStatus, date: int, id: Id)

  datatype Position = Position(date: int, id: Id)

  function PositionOf(): Row -> Position {
    (r: Row) => Position(r.date, r.id)
  }

  /** `p` comes before `q` in a statement: later date first, then higher id. */
  predicate Precedes(p: Position, q: Position) {
    p.date > q.date || (p.date == q.date && p.id > q.id)
  }

  function InOrder(): (Row, Row) -> bool {
    (r: Row, s: Row) => !Precedes(Position(s.date, s.id), Position(r.date, r.id))
  }

  // ----- The repository query -----

  datatype Query = Query(environment: Environment, accountId: Id, from: int, to: int, statuses: set<TransactionStatus>)

  predicate Matches(query: Query, r: Row) {
    && r.environment == query.environment && r.accountId == query.accountId
    && r.status in query.statuses && query.from <= r.date <= query.to
  }

  predicate Beyond(cursor: Option<Position>, r: Row) {
    cursor.None? || r.date < cursor.value.date || (r.date == cursor.value.date && r.id < cursor.value.id)
  }

  function Wanted(query: Query, cursor: Option<Position>): Row -> bool {
    (r: Row) => Matches(query, r) && Beyond(cursor, r)
  }

  function Found(table: seq<Row>, query: Query, cursor: Option<Position>): seq<Row> {
    Sort(Filter(table, |table|, Wanted(query, cursor)), InOrder())
  }

  datatype Page = Page(rows: seq<Row>, next: Option<Position>)

  /** One row more than asked is read, to know whether there is a next page. */
  function ReadPage(table: seq<Row>, query: Query, cursor: Option<Position>, limit: nat): Page {
    var found := Found(table, query, cursor);
    var rows := if |found| > limit + 1 then found[..limit + 1] else found;
    var hasMore := |rows| > limit;
    var page := if hasMore then rows[..limit] else rows;
    Page(page, if hasMore && page != [] then Some(PositionOf()(page[|page| - 1])) else None)
  }

  // ----- The cursor -----

  datatype KeysetCursor = KeysetCursor(position: Position, filters: string)

  /** The encodings the cursor is built from: base64url of JSON, and the signature under the secret. */
  datatype Codec = Codec(pack: KeysetCursor -> string, unpack: string -> Option<KeysetCursor>, sign: string -> string)

  datatype CursorResult = CursorOk(cursor: KeysetCursor) | Malformed | BadSignature | FiltersChanged

  /** The part of `s` before its first dot, and the part after it up to the next dot. */
  function UpToDot(s: string): string {
    if s == "" || s[0] == '.' then "" else [s[0]] + UpToDot(s[1..])
  }

  function EncodeCursor(codec: Codec, c: KeysetCursor): string {
    codec.pack(c) + "." + codec.sign(codec.pack(c))
  }

  function DecodeCursor(codec: Codec, value: string, filters: string): CursorResult {
    var payload := UpToDot(value);
    var signature := if |payload| < |value| then UpToDot(value[|payload| + 1..]) else "";
    if payload == "" || signature == "" then Malformed
    else if signature != codec.sign(payload) then BadSignature
    else
      match codec.unpack(payload)
      case None => Malformed
      case Some(c) => if c.filters != filters then FiltersChanged else CursorOk(c)
  }

  /** Unpacking undoes packing; neither the payload nor the signature is empty or holds a dot. */
  ghost predicate CodecOk(codec: Codec) {
    && (forall c :: codec.unpack(codec.pack(c)) == Some(c) && codec.pack(c) != "" && '.' !in codec.pack(c))
    && (forall p :: codec.sign(p) != "" && '.' !in codec.sign(p))
  }

  lemma {:induction false} UpToDotStops(s: string, t: string)
    requires '.' !in s && (t == "" || t[0] == '.')
    ensures UpToDot(s + t) == s
  {
    if s != "" {
      UpToDotStops(s[1..], t);
      assert (s + t)[1..] == s[1..] + t;
      assert s == [s[0]] + s[1..];
    } else {
      assert s + t == t;
    }
  }

  /** A cursor made by the service reads back as itself, exactly under the filters it was made for. */
  lemma CursorRoundTrip(codec: Codec, c: KeysetCursor, filters: string)
    requires CodecOk(codec)
    ensures DecodeCursor(codec, EncodeCursor(codec, c), filters) ==
            if c.filters == filters then CursorOk(c) else FiltersChanged
  {
    var payload, signature := codec.pack(c), codec.sign(codec.pack(c));
    var value := EncodeCursor(codec, c);
    assert value == payload + ("." + signature);
    UpToDotStops(payload, "." + signature);
    assert value[|payload| + 1..] == signature + "";
    UpToDotStops(signature, "");
  }

  // ----- The service -----

  const STATEMENT_STATUSES: set<TransactionStatus> := {Settled, Reversed, PartiallyReversed}

  /** What stays the same from page to page; `filters` is the digest of account and dates. */
  datatype Request = Request(environment: Environment, accountId: Id, from: int, to: int, filters: string)

  datatype Listing =
    | Listed(rows: seq<Row>, nextCursor: Option<string>)
    | AccountNotFound
    | InvalidCursor(reason: CursorResult)

  function QueryOf(request: Request): Query {
    Query(request.environment, request.accountId, request.from, request.to, STATEMENT_STATUSES)
  }

  function ListPage(codec: Codec, table: seq<Row>, request: Request, position: Option<Position>, limit: nat): Listing {
    var page := ReadPage(table, QueryOf(request), position, limit);
    Listed(page.rows, if page.next.Some? then Some(EncodeCursor(codec, KeysetCursor(page.next.value, request.filters))) else None)
  }

  /** An absent or empty cursor asks for the first page. */
  function List(codec: Codec, accountExists: bool, table: seq<Row>, request: Request, cursor: string, limit: nat): Listing {
    if !accountExists then AccountNotFound
    else if cursor == "" then ListPage(codec, table, request, None, limit)
    else
      var decoded := DecodeCursor(codec, cursor, request.filters);
      if decoded.CursorOk? then ListPage(codec, table, request, Some(decoded.cursor.position), limit)
      else InvalidCursor(decoded)
  }

  /** Paging on: the rows received so far, and what to ask for next. */
  datatype Walk = Walking(rows: seq<Row>, cursor: string) | Finished(rows: seq<Row>) | Broken(rows: seq<Row>)

  /** The client's loop over `n` pages: page `i` is read when the table is `tables[i]`, with limit `limits[i]`. */
  function Follow(codec: Codec, tables: seq<seq<Row>>, request: Request, limits: seq<nat>, n: nat): Walk
    requires n <= |tables| && n <= |limits|
  {
    if n == 0 then Walking([], "")
    else
      var w := Follow(codec, tables, request, limits, n - 1);
      if !w.Walking? then w
      else
        match List(codec, true, tables[n - 1], request, w.cursor, limits[n - 1])
        case Listed(rows, next) =>
          if next.Some? then Walking(w.rows + rows, next.value) else Finished(w.rows + rows)
        case _ => Broken(w.rows)
  }
}
