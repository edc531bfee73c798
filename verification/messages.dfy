/**
 The message lists of the service: the owner's, newest page first and reversed
 for display, and the shared page's, oldest first.  One request is described by
 what the store answered; a walk is a client following next.
 */
module Messages {
  import opened Wrappers
  import opened Keyset
  import opened Tables
  import opened Content
  import Cursor

  type Token = seq<Cursor.Base64Url.Byte>

  /** Package cursor as the lists use it. */
  datatype Codec = Codec(
    encode: Cursor.Position -> Result<Token, Cursor.Error>,
    decode: Token -> Result<Option<Cursor.Position>, Cursor.Error>)

  const CURSOR := Codec(p => Cursor.Encode(p), token => Cursor.Decode(token))

  function TokenFor(c: Codec, k: Key): Result<Token, Cursor.Error> {
    c.encode(Cursor.Position(Cursor.FromUnixMicro(k.micros), k.id))
  }

  /** All the lists need of the codec: a stored row's token reads back as that row's boundary. */
  ghost predicate Faithful(c: Codec) {
    && c.decode([]) == Ok(None)
    && forall k: Key :: Cursor.Int64(k.micros) ==> ReadsBack(c, k)
  }

  predicate ReadsBack(c: Codec, k: Key) {
    if k.id == [] then TokenFor(c, k).Err?
    else
      && TokenFor(c, k).Ok?
      && c.decode(TokenFor(c, k).value).Ok?
      && BoundaryOf(c.decode(TokenFor(c, k).value).value) == Some(k)
  }

  lemma CursorReadsBack(k: Key)
    requires Cursor.Int64(k.micros)
    ensures ReadsBack(CURSOR, k)
  {
    if k.id != [] {
      Cursor.MicrosecondPositionsSurvive(k.micros, k.id);
    }
  }

  lemma CursorIsFaithful()
    ensures Faithful(CURSOR)
  {
    forall k: Key | Cursor.Int64(k.micros) ensures ReadsBack(CURSOR, k) {
      CursorReadsBack(k);
    }
  }

  datatype Failure = NotFound | InvalidCursor | DatabaseError | EncodingError | Panic

  datatype Page<+T> = Page(data: seq<T>, next: Option<Token>)

  // ----- one request -----

  /** rows[:count] on a longer list; a negative count is out of range. */
  function Trimmed(rows: seq<Row>, count: int): Result<(seq<Row>, bool), Failure> {
    if |rows| <= count then Ok((rows, false))
    else if count < 0 then Err(Panic)
    else Ok((rows[..count], true))
  }

  /** The token after the last of rows, in the order the store returned them. */
  function NextCursor(c: Codec, rows: seq<Row>, hasMore: bool): Result<Option<Token>, Failure> {
    if !hasMore || |rows| == 0 then Ok(None)
    else
      var last := rows[|rows| - 1];
      match c.encode(Cursor.Position(last.createdAt, last.id))
      case Ok(token) => Ok(Some(token))
      case Err(_) => Err(EncodingError)
  }

  /** A page of rows in the store's order, from the store's answer. */
  function RowsPage(c: Codec, rows: Option<seq<Row>>, count: int): Result<Page<Row>, Failure> {
    match rows
    case None => Err(DatabaseError)
    case Some(found) =>
      match Trimmed(found, count)
      case Err(e) => Err(e)
      case Ok((kept, hasMore)) =>
        match NextCursor(c, kept, hasMore)
        case Err(e) => Err(e)
        case Ok(next) => Ok(Page(kept, next))
  }

  /** admitted: the thread is the caller's and not deleted, or the share link exists and is not deleted. */
  ghost function Listing(c: Codec, db: Database, t: Id, who: Reader, admitted: bool, token: Token, count: int, lt: Collation)
    : Result<Page<Row>, Failure>
    requires StrictTotal(lt)
  {
    if !admitted then Err(NotFound)
    else
      match c.decode(token)
      case Err(_) => Err(InvalidCursor)
      case Ok(after) => RowsPage(c, StoreRows(db, t, who, after, count, lt), count)
  }

  /** The request gets to its query, and the query fails. */
  predicate QueryFails(c: Codec, admitted: bool, token: Token, store: Option<Cursor.Position> -> Option<seq<Row>>) {
    admitted && c.decode(token).Ok? && store(c.decode(token).value).None?
  }

  function Mapped<A, B>(f: A -> B, xs: seq<A>): (ys: seq<B>)
    ensures |ys| == |xs| && forall i :: 0 <= i < |xs| ==> ys[i] == f(xs[i])
  {
    seq(|xs|, i requires 0 <= i < |xs| => f(xs[i]))
  }

  function SharedOf(row: Row): SharedMessage {
    SharedMessage(row.id, row.role, TextContent(row.content), row.createdAt, row.endedStatus)
  }

  /** What the owner receives for a page of rows: chronological order. */
  function OwnerPage(p: Page<Row>): Page<MessageResponse> {
    Page(Reverse(Mapped(Parsed, p.data)), p.next)
  }

  function SharedPage(p: Page<Row>): Page<SharedMessage> {
    Page(Mapped(SharedOf, p.data), p.next)
  }

  /** The visitor's response, field by field. */
  lemma SharedResponseIsTheRow(row: Row)
    ensures var m := SharedOf(row);
            && m.id == row.id && m.role == row.role && m.createdAt == row.createdAt && m.endedStatus == row.endedStatus
            && m.content == (if row.content.parsed.Some? && row.content.parsed.value.format != 0
                             then JoinLines(FlatMap(TextOf, row.content.parsed.value.parts)) else row.content.raw)
  {
    ReadersShowTheSameText(row);
    ResponseIsTheRow(row);
  }

  method ReverseInPlace<T>(a: array<T>)
    modifies a
    ensures a[..] == Reverse(old(a[..]))
  {
    var i, j := 0, a.Length - 1;
    while i < j
      invariant 0 <= i <= j + 1 && j == a.Length - 1 - i
      invariant forall k :: 0 <= k < i || j < k < a.Length ==> a[k] == old(a[a.Length - 1 - k])
      invariant forall k :: i <= k <= j ==> a[k] == old(a[k])
    {
      a[i], a[j] := a[j], a[i];
      i, j := i + 1, j - 1;
    }
    assert forall k :: 0 <= k < a.Length ==> a[k] == old(a[..])[a.Length - 1 - k];
  }

  /** The page under construction: a fresh slice with the rows parsed in order. */
  method ParseRows(rows: seq<Row>) returns (data: array<MessageResponse>)
    ensures fresh(data) && data[..] == Mapped(Parsed, rows)
  {
    var parsed: seq<MessageResponse> := [];
    for i := 0 to |rows|
      invariant |parsed| == i && forall k :: 0 <= k < i ==> parsed[k] == Parsed(rows[k])
    {
      var msg := ParseMessage(rows[i]);
      parsed := parsed + [msg];
    }
    data := new MessageResponse[|parsed|](i requires 0 <= i < |parsed| => parsed[i]);
    assert data[..] == Mapped(Parsed, rows);
  }

  /**
   agentService.ListMessages; store is the store's ListMessages for this thread, user
   and count, which may also fail for a reason of its own.
   */
  method ListMessages(ghost db: Database, ghost t: Id, ghost user: Id, ghost lt: Collation,
                      c: Codec, admitted: bool, token: Token, count: int, store: Option<Cursor.Position> -> Option<seq<Row>>)
    returns (r: Result<Page<MessageResponse>, Failure>)
    requires StrictTotal(lt)
    requires forall after :: store(after).None? || store(after) == StoreRows(db, t, Owner(user), after, count, lt)
    ensures QueryFails(c, admitted, token, store) ==> r == Err(DatabaseError)
    ensures !QueryFails(c, admitted, token, store) ==>
              r == match Listing(c, db, t, Owner(user), admitted, token, count, lt)
                   case Err(e) => Err(e)
                   case Ok(page) => Ok(OwnerPage(page))
  {
    if !admitted {
      return Err(NotFound);
    }
    var decoded := c.decode(token);
    if decoded.Err? {
      return Err(InvalidCursor);
    }
    var answer := store(decoded.value);
    if answer.None? {
      return Err(DatabaseError);
    }
    var rows := answer.value;
    var hasMore := |rows| > count;
    if hasMore {
      if count < 0 {
        return Err(Panic);
      }
      rows := rows[..count];
    }
    var data := ParseRows(rows);
    var next := NextCursor(c, rows, hasMore);
    if next.Err? {
      return Err(next.error);
    }
    ReverseInPlace(data);
    r := Ok(Page(data[..], next.value));
  }

  /** shareService.ListSharedMessages; link is the share link read, if any. */
  method ListSharedMessages(ghost db: Database, ghost lt: Collation, c: Codec, link: Option<ShareLink>, token: Token, count: int,
                            store: Option<Cursor.Position> -> Option<seq<Row>>)
    returns (r: Result<Page<SharedMessage>, Failure>)
    requires StrictTotal(lt)
    requires link.Some? ==> forall after ::
               store(after).None?
               || store(after) == StoreRows(db, link.value.referenceId, Visitor(link.value.createdAt), after, count, lt)
    ensures link.None? || link.value.deleted ==> r == Err(NotFound)
    ensures QueryFails(c, link.Some? && !link.value.deleted, token, store) ==> r == Err(DatabaseError)
    ensures link.Some? && !link.value.deleted && !QueryFails(c, true, token, store) ==>
              r == match Listing(c, db, link.value.referenceId, Visitor(link.value.createdAt), true, token, count, lt)
                   case Err(e) => Err(e)
                   case Ok(page) => Ok(SharedPage(page))
  {
    if link.None? || link.value.deleted {
      return Err(NotFound);
    }
    var decoded := c.decode(token);
    if decoded.Err? {
      return Err(InvalidCursor);
    }
    var answer := store(decoded.value);
    if answer.None? {
      return Err(DatabaseError);
    }
    var rows := answer.value;
    var hasMore := |rows| > count;
    if hasMore {
      if count < 0 {
        return Err(Panic);
      }
      rows := rows[..count];
    }
    var blank := SharedMessage([], User, "", Cursor.Time(0, 0), None);
    var data := new SharedMessage[|rows|](_ => blank);
    for i := 0 to |rows|
      invariant forall k :: 0 <= k < i ==> data[k] == SharedOf(rows[k])
    {
      var row := rows[i];
      var content := ExtractTextContent(row.content);
      data[i] := SharedMessage(row.id, row.role, content, row.createdAt, row.endedStatus);
    }
    assert data[..] == Mapped(SharedOf, rows);
    var next := NextCursor(c, rows, hasMore);
    if next.Err? {
      return Err(next.error);
    }
    r := Ok(Page(data[..], next.value));
  }

  // ----- what one page is -----

  lemma StoredAre(db: Database, t: Id, who: Reader, after: Option<Key>, n: nat, lt: Collation)
    requires StrictTotal(lt) && StrictTotal(OrderOf(who, lt))
    ensures forall k <- Query(VisibleKeys(db, t, who), after, n, OrderOf(who, lt)) ::
              k in VisibleKeys(db, t, who) && k.id in db.messages && k == KeyOf(db, k.id)
  {
    QueriedAreStored(db, t, who, after, n, lt);
  }

  /** Trimming and naming the next page, on a list of rows fetched for one more than count. */
  lemma RowsPageIs(c: Codec, db: Database, t: Id, who: Reader, ks: seq<Key>, count: nat)
    requires count >= 1 && forall k <- ks :: k.id in db.messages && k == KeyOf(db, k.id)
    ensures forall k <- Take(count, ks) :: k.id in db.messages
    ensures |ks| <= count ==> RowsPage(c, Some(RowsFor(db, t, who, ks)), count) == Ok(Page(RowsFor(db, t, who, ks), None))
    ensures |ks| > count ==>
              RowsPage(c, Some(RowsFor(db, t, who, ks)), count) ==
              match TokenFor(c, ks[count - 1])
              case Err(_) => Err(EncodingError)
              case Ok(token) => Ok(Page(RowsFor(db, t, who, ks[..count]), Some(token)))
  {
    if |ks| > count {
      var rows := RowsFor(db, t, who, ks);
      assert rows[..count] == RowsFor(db, t, who, ks[..count]);
      assert ks[count - 1] == KeyOf(db, ks[count - 1].id);
      assert rows[..count][count - 1] == RowFor(db, t, who, ks[count - 1]);
    }
  }

  /**
   An admitted request with count >= 1 returns the first count visible messages
   beyond the boundary and, exactly when more are visible, a next token naming
   the last of them; it fails only when that one's id is empty.
   */
  lemma ListingIsPage(c: Codec, db: Database, t: Id, who: Reader, token: Token, after: Option<Cursor.Position>,
                      count: nat, lt: Collation)
    requires Faithful(c) && c.decode(token) == Ok(after)
    requires StrictTotal(lt) && StrictTotal(OrderOf(who, lt)) && ValidDb(db) && count >= 1
    ensures var order, keys, boundary := OrderOf(who, lt), VisibleKeys(db, t, who), BoundaryOf(after);
            var ks := Query(keys, boundary, count, order);
            && (forall k <- ks :: k.id in db.messages)
            && (!HasMore(keys, boundary, count, order) ==>
                  Listing(c, db, t, who, true, token, count, lt) == Ok(Page(RowsFor(db, t, who, ks), None)))
            && (HasMore(keys, boundary, count, order) ==>
                  |ks| == count
                  && Listing(c, db, t, who, true, token, count, lt) ==
                     match TokenFor(c, ks[count - 1])
                     case Err(_) => Err(EncodingError)
                     case Ok(next) => Ok(Page(RowsFor(db, t, who, ks), Some(next))))
  {
    var fetched := ListingFetches(c, db, t, who, token, after, count, lt);
    RowsPageIs(c, db, t, who, fetched, count);
  }

  /**
   Exactly when a request fails, and how: the reader has no access, whatever the token;
   the token does not decode; the count is negative; or a further page would have to
   start after a message whose id is empty.  At -1 it panics, below that the database refuses; at 0 it returns an
   empty last page whatever is left.
   */
  lemma ListingFailsExactlyWhen(c: Codec, db: Database, t: Id, who: Reader, admitted: bool, token: Token, count: int, lt: Collation)
    requires Faithful(c) && StrictTotal(lt) && StrictTotal(OrderOf(who, lt)) && ValidDb(db)
    ensures var page := Listing(c, db, t, who, admitted, token, count, lt);
            && (page.Err? <==>
                  || !admitted
                  || c.decode(token).Err?
                  || count < 0
                  || (count >= 1 && StuckAtEmptyId(db, t, who, BoundaryOf(c.decode(token).value), count, OrderOf(who, lt))))
            && (!admitted ==> page == Err(NotFound))
            && (admitted && c.decode(token).Err? ==> page == Err(InvalidCursor))
            && (admitted && c.decode(token).Ok? && count >= 1 && page.Err? ==> page == Err(EncodingError))
            && (admitted && c.decode(token).Ok? ==>
                  && (page == Err(Panic) <==> count == -1)
                  && (page == Err(DatabaseError) <==> count < -1)
                  && (count == 0 ==> page == Ok(Page([], None))))
  {
    if admitted && c.decode(token).Ok? {
      if count >= 1 {
        ListingIsPage(c, db, t, who, token, c.decode(token).value, count, lt);
        LastHasTokenIff(c, db, t, who, BoundaryOf(c.decode(token).value), count, lt);
      }
    }
  }

  /** More messages follow the page, and its last one has an empty id. */
  ghost predicate StuckAtEmptyId(db: Database, t: Id, who: Reader, boundary: Option<Key>, count: nat,
                                 order: (Key, Key) -> bool)
    requires StrictTotal(order) && count >= 1
  {
    HasMore(VisibleKeys(db, t, who), boundary, count, order)
    && Query(VisibleKeys(db, t, who), boundary, count, order)[count - 1].id == []
  }

  lemma LastHasTokenIff(c: Codec, db: Database, t: Id, who: Reader, boundary: Option<Key>, count: nat, lt: Collation)
    requires Faithful(c) && StrictTotal(lt) && StrictTotal(OrderOf(who, lt)) && ValidDb(db) && count >= 1
    ensures var keys, order := VisibleKeys(db, t, who), OrderOf(who, lt);
            HasMore(keys, boundary, count, order) ==>
              (TokenFor(c, Query(keys, boundary, count, order)[count - 1]).Err? <==>
               StuckAtEmptyId(db, t, who, boundary, count, order))
  {
    var keys, order := VisibleKeys(db, t, who), OrderOf(who, lt);
    if HasMore(keys, boundary, count, order) {
      var last := Query(keys, boundary, count, order)[count - 1];
      StoredAre(db, t, who, boundary, count, lt);
      assert last in Query(keys, boundary, count, order);
      assert ReadsBack(c, last);
    }
  }

  lemma ListingFetches(c: Codec, db: Database, t: Id, who: Reader, token: Token, after: Option<Cursor.Position>,
                       count: nat, lt: Collation) returns (fetched: seq<Key>)
    requires c.decode(token) == Ok(after)
    requires StrictTotal(lt) && StrictTotal(OrderOf(who, lt))
    ensures forall k <- fetched :: k.id in db.messages && k == KeyOf(db, k.id)
    ensures Listing(c, db, t, who, true, token, count, lt) == RowsPage(c, Some(RowsFor(db, t, who, fetched)), count)
    ensures var order, keys, boundary := OrderOf(who, lt), VisibleKeys(db, t, who), BoundaryOf(after);
            && (HasMore(keys, boundary, count, order) <==> |fetched| > count)
            && Query(keys, boundary, count, order) == Take(count, fetched)
  {
    fetched := Query(VisibleKeys(db, t, who), BoundaryOf(after), count + 1, OrderOf(who, lt));
    QueriedAreStored(db, t, who, BoundaryOf(after), count + 1, lt);
    FetchOneMore(VisibleKeys(db, t, who), BoundaryOf(after), count, OrderOf(who, lt));
  }

  // ----- walks: a client following next -----

  /** The i-th request of a walk meets the i-th of these; one that fails in the database counts as not admitted. */
  datatype Moment = Moment(admitted: bool, db: Database)

  ghost function Walk(c: Codec, moments: seq<Moment>, t: Id, who: Reader, token: Token, count: int, lt: Collation)
    : (pages: seq<Page<Row>>)
    requires StrictTotal(lt)
    ensures |pages| <= |moments|
  {
    if moments == [] then []
    else
      match Listing(c, moments[0].db, t, who, moments[0].admitted, token, count, lt)
      case Err(_) => []
      case Ok(page) =>
        if page.next.None? then [page]
        else [page] + Walk(c, moments[1..], t, who, page.next.value, count, lt)
  }

  /** The walk reached a page without a next one. */
  ghost predicate Ended(c: Codec, moments: seq<Moment>, t: Id, who: Reader, token: Token, count: int, lt: Collation)
    requires StrictTotal(lt)
  {
    moments != []
    && match Listing(c, moments[0].db, t, who, moments[0].admitted, token, count, lt)
       case Err(_) => false
       case Ok(page) => page.next.Some? ==> Ended(c, moments[1..], t, who, page.next.value, count, lt)
  }

  ghost function KeyTables(moments: seq<Moment>, t: Id, who: Reader): (tables: seq<set<Key>>)
    ensures |tables| == |moments|
  {
    seq(|moments|, i requires 0 <= i < |moments| => VisibleKeys(moments[i].db, t, who))
  }

  ghost predicate AllValid(moments: seq<Moment>) {
    forall m <- moments :: ValidDb(m.db)
  }

  ghost predicate IsRowsOf(page: Page<Row>, ks: seq<Key>, db: Database, t: Id, who: Reader) {
    (forall k <- ks :: k.id in db.messages) && page.data == RowsFor(db, t, who, ks)
  }

  /** Page i holds the rows of key page i as they were at moment i. */
  ghost predicate Match(pages: seq<Page<Row>>, keys: seq<seq<Key>>, moments: seq<Moment>, t: Id, who: Reader) {
    && |pages| <= |keys| && |pages| <= |moments|
    && forall i :: 0 <= i < |pages| ==> IsRowsOf(pages[i], keys[i], moments[i].db, t, who)
  }

  lemma MatchOneMore(p: Page<Row>, pages: seq<Page<Row>>, ks: seq<Key>, keys: seq<seq<Key>>, moments: seq<Moment>,
                     t: Id, who: Reader)
    requires moments != [] && IsRowsOf(p, ks, moments[0].db, t, who) && Match(pages, keys, moments[1..], t, who)
    ensures Match([p] + pages, [ks] + keys, moments, t, who)
  {
  }

  /** A client's walk from the token reads the pages of the key walk from the boundary, as far as it gets. */
  ghost predicate ReadsKeyWalk(c: Codec, moments: seq<Moment>, t: Id, who: Reader, token: Token, boundary: Option<Key>,
                               count: nat, lt: Collation)
    requires StrictTotal(lt) && StrictTotal(OrderOf(who, lt))
  {
    var pages := Walk(c, moments, t, who, token, count, lt);
    var keys := Keyset.Walk(KeyTables(moments, t, who), boundary, count, OrderOf(who, lt));
    && Match(pages, keys, moments, t, who)
    && (Ended(c, moments, t, who, token, count, lt) ==>
          && |pages| == |keys|
          && Keyset.Finished(KeyTables(moments, t, who), boundary, count, OrderOf(who, lt)))
  }

  lemma {:induction false} WalkReadsKeyWalk(c: Codec, moments: seq<Moment>, t: Id, who: Reader, token: Token,
                                            after: Option<Cursor.Position>, count: nat, lt: Collation)
    requires Faithful(c) && c.decode(token) == Ok(after)
    requires StrictTotal(lt) && StrictTotal(OrderOf(who, lt)) && count >= 1 && AllValid(moments)
    ensures ReadsKeyWalk(c, moments, t, who, token, BoundaryOf(after), count, lt)
    decreases |moments|
  {
    if moments != [] && moments[0].admitted {
      var page := Listing(c, moments[0].db, t, who, true, token, count, lt);
      var next := OnePage(c, moments[0], t, who, token, after, count, lt);
      var ks := Query(VisibleKeys(moments[0].db, t, who), BoundaryOf(after), count, OrderOf(who, lt));
      if page.Ok? {
        if next.Some? {
          var after' := c.decode(next.value).value;
          WalkReadsKeyWalk(c, moments[1..], t, who, next.value, after', count, lt);
          ClientUnfolds(c, moments, t, who, token, count, lt, page.value);
          KeysUnfold(moments, t, who, BoundaryOf(after), count, OrderOf(who, lt), ks);
          MatchOneMore(page.value, Walk(c, moments[1..], t, who, next.value, count, lt), ks,
                       Keyset.Walk(KeyTables(moments[1..], t, who), Some(ks[count - 1]), count, OrderOf(who, lt)),
                       moments, t, who);
        } else {
          WalkStops(c, moments, t, who, token, BoundaryOf(after), count, lt, page.value, ks);
        }
      }
    }
  }

  /** One request of a client's walk. */
  lemma ClientUnfolds(c: Codec, moments: seq<Moment>, t: Id, who: Reader, token: Token, count: nat, lt: Collation, page: Page<Row>)
    requires StrictTotal(lt) && moments != [] && moments[0].admitted && page.next.Some?
    requires Listing(c, moments[0].db, t, who, true, token, count, lt) == Ok(page)
    ensures Walk(c, moments, t, who, token, count, lt) == [page] + Walk(c, moments[1..], t, who, page.next.value, count, lt)
    ensures Ended(c, moments, t, who, token, count, lt) <==> Ended(c, moments[1..], t, who, page.next.value, count, lt)
  {
  }

  /** One request of the key walk. */
  lemma KeysUnfold(moments: seq<Moment>, t: Id, who: Reader, boundary: Option<Key>, count: nat, order: (Key, Key) -> bool,
                   ks: seq<Key>)
    requires StrictTotal(order) && count >= 1 && moments != []
    requires ks == Query(VisibleKeys(moments[0].db, t, who), boundary, count, order) && |ks| == count
    requires HasMore(VisibleKeys(moments[0].db, t, who), boundary, count, order)
    ensures var tables, rest, last := KeyTables(moments, t, who), KeyTables(moments[1..], t, who), Some(ks[count - 1]);
            && Keyset.Walk(tables, boundary, count, order) == [ks] + Keyset.Walk(rest, last, count, order)
            && (Keyset.Finished(tables, boundary, count, order) <==> Keyset.Finished(rest, last, count, order))
  {
    var tables := KeyTables(moments, t, who);
    assert tables[1..] == KeyTables(moments[1..], t, who);
    WalkUnfolds(tables, boundary, count, order);
  }

  lemma WalkStops(c: Codec, moments: seq<Moment>, t: Id, who: Reader, token: Token, boundary: Option<Key>,
                  count: nat, lt: Collation, page: Page<Row>, ks: seq<Key>)
    requires StrictTotal(lt) && StrictTotal(OrderOf(who, lt)) && count >= 1
    requires moments != [] && moments[0].admitted
    requires Listing(c, moments[0].db, t, who, true, token, count, lt) == Ok(page) && page.next.None?
    requires ks == Query(VisibleKeys(moments[0].db, t, who), boundary, count, OrderOf(who, lt))
    requires IsRowsOf(page, ks, moments[0].db, t, who)
    requires !HasMore(VisibleKeys(moments[0].db, t, who), boundary, count, OrderOf(who, lt))
    ensures ReadsKeyWalk(c, moments, t, who, token, boundary, count, lt)
  {
    WalkUnfolds(KeyTables(moments, t, who), boundary, count, OrderOf(who, lt));
    MatchOneMore(page, [], ks, [], moments, t, who);
  }

  /** One request of a walk: the page's rows, and the token that leads on, if any. */
  lemma OnePage(c: Codec, m: Moment, t: Id, who: Reader, token: Token, after: Option<Cursor.Position>,
                count: nat, lt: Collation) returns (next: Option<Token>)
    requires Faithful(c) && c.decode(token) == Ok(after)
    requires StrictTotal(lt) && StrictTotal(OrderOf(who, lt)) && ValidDb(m.db) && count >= 1 && m.admitted
    ensures var order, keys, boundary := OrderOf(who, lt), VisibleKeys(m.db, t, who), BoundaryOf(after);
            var ks := Query(keys, boundary, count, order);
            var page := Listing(c, m.db, t, who, true, token, count, lt);
            && (page.Ok? ==> IsRowsOf(page.value, ks, m.db, t, who) && page.value.next == next)
            && (page.Err? ==> next.None?)
            && (next.None? && page.Ok? ==> !HasMore(keys, boundary, count, order))
            && (next.Some? ==>
                  && HasMore(keys, boundary, count, order) && |ks| == count
                  && c.decode(next.value).Ok?
                  && BoundaryOf(c.decode(next.value).value) == Some(ks[count - 1]))
  {
    ListingIsPage(c, m.db, t, who, token, after, count, lt);
    var ks := Query(VisibleKeys(m.db, t, who), BoundaryOf(after), count, OrderOf(who, lt));
    if HasMore(VisibleKeys(m.db, t, who), BoundaryOf(after), count, OrderOf(who, lt)) && TokenFor(c, ks[count - 1]).Ok? {
      StoredAre(m.db, t, who, BoundaryOf(after), count, lt);
      assert ks[count - 1] in ks && ks[count - 1] == KeyOf(m.db, ks[count - 1].id);
      assert ReadsBack(c, ks[count - 1]);
      next := Some(TokenFor(c, ks[count - 1]).value);
    } else {
      next := None;
    }
  }
}
