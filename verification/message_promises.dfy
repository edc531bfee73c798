/**
 What the message lists promise a client that follows next: over tables that
 change between requests no message twice and none missed, over unchanged tables
 the whole list in order, and the same conversation for its owner and on a shared
 page.
 */
module MessagePromises {
  import opened Wrappers
  import opened Keyset
  import opened Tables
  import opened Content
  import opened Messages
  import Cursor

  /** The rows of all pages, in the order they were read. */
  function AllRows(pages: seq<Page<Row>>): seq<Row> {
    if pages == [] then [] else pages[0].data + AllRows(pages[1..])
  }

  // ----- changing tables -----

  /** The keys behind a walk's pages, and what is known of them. */
  lemma KeysOfWalk(moments: seq<Moment>, t: Id, who: Reader, token: Token, count: nat, lt: Collation)
    returns (keys: seq<seq<Key>>)
    requires StrictTotal(lt) && count >= 1 && AllValid(moments) && Cursor.Decode(token).Ok?
    ensures StrictTotal(OrderOf(who, lt))
    ensures Match(Messages.Walk(CURSOR, moments, t, who, token, count, lt), keys, moments, t, who)
    ensures |keys| <= |moments|
    ensures forall i, k :: 0 <= i < |keys| && k in keys[i] ==> k in VisibleKeys(moments[i].db, t, who)
    ensures forall i :: 0 <= i < |keys| ==> Ascending(keys[i], OrderOf(who, lt))
    ensures forall i, j, x, y :: 0 <= i < j < |keys| && x in keys[i] && y in keys[j] ==> OrderOf(who, lt)(x, y)
  {
    var after := Cursor.Decode(token).value;
    var tables, order := KeyTables(moments, t, who), OrderOf(who, lt);
    KeyOrdersAreTotal(lt);
    CursorIsFaithful();
    WalkReadsKeyWalk(CURSOR, moments, t, who, token, after, count, lt);
    WalkAscends(tables, BoundaryOf(after), count, order);
    keys := Keyset.Walk(tables, BoundaryOf(after), count, order);
    FlattenAscends(keys, order);
  }

  /** Row a of page i is the message it was read from, visible at the time. */
  lemma RowIsItsMessage(pages: seq<Page<Row>>, keys: seq<seq<Key>>, moments: seq<Moment>, t: Id, who: Reader, i: nat, a: nat)
    requires Match(pages, keys, moments, t, who) && i < |pages| && a < |pages[i].data|
    requires forall k <- keys[i] :: k in VisibleKeys(moments[i].db, t, who)
    ensures a < |keys[i]| && keys[i][a] in keys[i]
    ensures var id := pages[i].data[a].id;
            && Reads(moments[i].db, t, who, id)
            && keys[i][a] == KeyOf(moments[i].db, id)
            && pages[i].data[a] == RowFor(moments[i].db, t, who, KeyOf(moments[i].db, id))
  {
    assert IsRowsOf(pages[i], keys[i], moments[i].db, t, who);
    assert keys[i][a] in keys[i];
  }

  /**
   However the tables change between the requests, each row is the message as it was,
   visible, when its page was read, and is column by column what the tables then said.
   */
  lemma RowsAreVisibleMessages(moments: seq<Moment>, t: Id, who: Reader, token: Token, count: nat, lt: Collation)
    requires StrictTotal(lt) && count >= 1 && AllValid(moments)
    ensures var pages := Messages.Walk(CURSOR, moments, t, who, token, count, lt);
            forall i, a :: 0 <= i < |pages| && 0 <= a < |pages[i].data| ==>
              && Reads(moments[i].db, t, who, pages[i].data[a].id)
              && pages[i].data[a] == RowFor(moments[i].db, t, who, KeyOf(moments[i].db, pages[i].data[a].id))
              && TablesSay(moments[i].db, t, who, pages[i].data[a])
  {
    var pages := Messages.Walk(CURSOR, moments, t, who, token, count, lt);
    if pages != [] {
      var keys: seq<seq<Key>> := KeysOfWalk(moments, t, who, token, count, lt);
      forall i, a | 0 <= i < |pages| && 0 <= a < |pages[i].data|
        ensures Reads(moments[i].db, t, who, pages[i].data[a].id)
        ensures pages[i].data[a] == RowFor(moments[i].db, t, who, KeyOf(moments[i].db, pages[i].data[a].id))
        ensures TablesSay(moments[i].db, t, who, pages[i].data[a])
      {
        RowIsItsMessage(pages, keys, moments, t, who, i, a);
        RowsAreWhatTheTablesSay(moments[i].db, t, who, pages[i].data[a]);
      }
    }
  }

  /** The message id is stored at both moments, at the later one further on in the reader's list. */
  predicate StoredAgain(db: Database, later: Database, who: Reader, id: Id) {
    && id in db.messages && id in later.messages
    && if who.Owner? then CreatedAt(later.messages[id]) < CreatedAt(db.messages[id])
       else CreatedAt(db.messages[id]) < CreatedAt(later.messages[id])
  }

  lemma OrderedAgain(db: Database, later: Database, who: Reader, lt: Collation, id: Id)
    requires StrictTotal(lt) && id in db.messages && id in later.messages
    requires OrderOf(who, lt)(KeyOf(db, id), KeyOf(later, id))
    ensures StoredAgain(db, later, who, id)
  {
    assert OrderLaws(lt, id, id, id);
  }

  /** Row a of page i and row b of page j are different rows of one message. */
  predicate SameMessage(pages: seq<Page<Row>>, i: int, j: int, a: int, b: int) {
    && 0 <= i <= j < |pages| && 0 <= a < |pages[i].data| && 0 <= b < |pages[j].data|
    && (i < j || a < b) && pages[i].data[a].id == pages[j].data[b].id
  }

  lemma SameMessageIsStoredAgain(pages: seq<Page<Row>>, keys: seq<seq<Key>>, moments: seq<Moment>, t: Id, who: Reader,
                                 lt: Collation, i: nat, j: nat, a: nat, b: nat)
    requires StrictTotal(lt) && Match(pages, keys, moments, t, who) && SameMessage(pages, i, j, a, b)
    requires forall k <- keys[i] :: k in VisibleKeys(moments[i].db, t, who)
    requires forall k <- keys[j] :: k in VisibleKeys(moments[j].db, t, who)
    requires Ascending(keys[i], OrderOf(who, lt))
    requires i < j ==> forall x, y :: x in keys[i] && y in keys[j] ==> OrderOf(who, lt)(x, y)
    ensures i < j && StoredAgain(moments[i].db, moments[j].db, who, pages[i].data[a].id)
  {
    RowIsItsMessage(pages, keys, moments, t, who, i, a);
    RowIsItsMessage(pages, keys, moments, t, who, j, b);
    LaterIsBeyond(keys, OrderOf(who, lt), i, j, a, b);
    OrderedAgain(moments[i].db, moments[j].db, who, lt, pages[i].data[a].id);
  }

  /**
   No message is returned twice, on one page or on two: where one id comes back, the
   message was deleted and stored again with a timestamp further on in the list.
   */
  lemma NoMessageTwice(moments: seq<Moment>, t: Id, who: Reader, token: Token, count: nat, lt: Collation)
    requires StrictTotal(lt) && count >= 1 && AllValid(moments)
    ensures var pages := Messages.Walk(CURSOR, moments, t, who, token, count, lt);
            forall i, j, a, b :: SameMessage(pages, i, j, a, b) ==>
              i < j && StoredAgain(moments[i].db, moments[j].db, who, pages[i].data[a].id)
  {
    var pages := Messages.Walk(CURSOR, moments, t, who, token, count, lt);
    if pages != [] {
      var keys: seq<seq<Key>> := KeysOfWalk(moments, t, who, token, count, lt);
      forall i, j, a, b | SameMessage(pages, i, j, a, b)
        ensures i < j && StoredAgain(moments[i].db, moments[j].db, who, pages[i].data[a].id)
      {
        SameMessageIsStoredAgain(pages, keys, moments, t, who, lt, i, j, a, b);
      }
    }
  }

  lemma PageHolds(pages: seq<Page<Row>>, keys: seq<seq<Key>>, moments: seq<Moment>, t: Id, who: Reader, i: nat, k: Key)
    returns (a: nat)
    requires Match(pages, keys, moments, t, who) && i < |pages| && k in keys[i]
    ensures k.id in moments[i].db.messages
    ensures a < |pages[i].data| && pages[i].data[a] == RowFor(moments[i].db, t, who, k)
  {
    assert IsRowsOf(pages[i], keys[i], moments[i].db, t, who);
    a :| 0 <= a < |keys[i]| && keys[i][a] == k;
  }

  lemma KeyIsInEveryTable(moments: seq<Moment>, t: Id, who: Reader, n: nat, k: Key)
    requires n <= |moments|
    requires forall j :: 0 <= j < n ==> Reads(moments[j].db, t, who, k.id) && k == KeyOf(moments[j].db, k.id)
    ensures forall s <- KeyTables(moments, t, who)[..n] :: k in s
  {
    var tables := KeyTables(moments, t, who);
    forall s <- tables[..n] ensures k in s {
      var j :| 0 <= j < n && tables[j] == s;
      assert Reads(moments[j].db, t, who, k.id);
    }
  }

  /**
   A walk from the first page to the last returns every message that was visible,
   under one timestamp, at each of its requests, whatever was inserted, deleted,
   hidden or shown in between, the rows the cursors were taken from included.
   */
  lemma NoMessageMissed(moments: seq<Moment>, t: Id, who: Reader, count: nat, lt: Collation, k: Key)
    returns (i: nat, a: nat)
    requires StrictTotal(lt) && count >= 1 && AllValid(moments)
    requires Ended(CURSOR, moments, t, who, [], count, lt)
    requires forall j :: 0 <= j < |Messages.Walk(CURSOR, moments, t, who, [], count, lt)| ==>
               Reads(moments[j].db, t, who, k.id) && k == KeyOf(moments[j].db, k.id)
    ensures var pages := Messages.Walk(CURSOR, moments, t, who, [], count, lt);
            && i < |pages| && a < |pages[i].data| && k.id in moments[i].db.messages
            && pages[i].data[a] == RowFor(moments[i].db, t, who, k)
            && pages[i].data[a].id == k.id
  {
    var pages := Messages.Walk(CURSOR, moments, t, who, [], count, lt);
    var tables, order := KeyTables(moments, t, who), OrderOf(who, lt);
    KeyOrdersAreTotal(lt);
    CursorIsFaithful();
    WalkReadsKeyWalk(CURSOR, moments, t, who, [], None, count, lt);
    var keys := Keyset.Walk(tables, None, count, order);
    KeyIsInEveryTable(moments, t, who, |pages|, k);
    WalkIsComplete(tables, None, count, order, k);
    i := FlattenFrom(keys, k);
    a := PageHolds(pages, keys, moments, t, who, i, k);
  }

  // ----- unchanged tables -----

  ghost predicate Unchanged(moments: seq<Moment>, db: Database) {
    forall i :: 0 <= i < |moments| ==> moments[i] == Moment(true, db)
  }

  /** A message whose id is empty has no token. */
  predicate HasToken(k: Key) {
    k.id != []
  }

  /** With more messages to come, a page leads on to what follows it, or fails when its last message has no token. */
  lemma PageLeadsOn(c: Codec, db: Database, t: Id, who: Reader, token: Token, after: Option<Cursor.Position>,
                    count: nat, lt: Collation) returns (rest: Option<Cursor.Position>)
    requires Faithful(c) && c.decode(token) == Ok(after)
    requires StrictTotal(lt) && StrictTotal(OrderOf(who, lt)) && count >= 1 && ValidDb(db)
    requires HasMore(VisibleKeys(db, t, who), BoundaryOf(after), count, OrderOf(who, lt))
    ensures var all := Sort(Beyond(VisibleKeys(db, t, who), BoundaryOf(after), OrderOf(who, lt)), OrderOf(who, lt));
            var page := Listing(c, db, t, who, true, token, count, lt);
            && (page.Ok? <==> HasToken(all[count - 1]))
            && (page.Ok? ==>
                  && page.value.next.Some?
                  && c.decode(page.value.next.value) == Ok(rest)
                  && BoundaryOf(rest) == Some(all[count - 1]))
  {
    var keys, order := VisibleKeys(db, t, who), OrderOf(who, lt);
    var ks := Query(keys, BoundaryOf(after), count, order);
    ListingIsPage(c, db, t, who, token, after, count, lt);
    StoredAre(db, t, who, BoundaryOf(after), count, lt);
    assert ks[count - 1] in ks;
    assert ReadsBack(c, ks[count - 1]);
    rest := if HasToken(ks[count - 1]) then c.decode(TokenFor(c, ks[count - 1]).value).value else None;
  }

  /** The walk can end from here: with enough requests, and no page stuck at a message without a token. */
  ghost predicate CanEnd(requests: nat, left: set<Key>, count: nat, order: (Key, Key) -> bool)
    requires StrictTotal(order) && count >= 1
  {
    requests >= PageCount(|left|, count) && LeadsOn(Sort(left, order), count, HasToken)
  }

  lemma CanEndUnfolds(requests: nat, keys: set<Key>, boundary: Option<Key>, count: nat, order: (Key, Key) -> bool)
    requires StrictTotal(order) && count >= 1 && requests >= 1
    ensures !HasMore(keys, boundary, count, order) ==> CanEnd(requests, Beyond(keys, boundary, order), count, order)
    ensures HasMore(keys, boundary, count, order) ==>
              var last := Sort(Beyond(keys, boundary, order), order)[count - 1];
              CanEnd(requests, Beyond(keys, boundary, order), count, order) <==>
                HasToken(last) && CanEnd(requests - 1, Beyond(keys, Some(last), order), count, order)
  {
    if HasMore(keys, boundary, count, order) {
      RestOfUnchanged(keys, boundary, count, order);
    }
  }

  /** Exactly when a walk over unchanged tables ends. */
  lemma {:induction false} UnchangedWalkEndsIff(c: Codec, db: Database, moments: seq<Moment>, t: Id, who: Reader, token: Token,
                                                after: Option<Cursor.Position>, count: nat, lt: Collation)
    requires Faithful(c) && c.decode(token) == Ok(after)
    requires StrictTotal(lt) && StrictTotal(OrderOf(who, lt)) && count >= 1 && ValidDb(db)
    requires Unchanged(moments, db)
    ensures Ended(c, moments, t, who, token, count, lt) <==>
            CanEnd(|moments|, Beyond(VisibleKeys(db, t, who), BoundaryOf(after), OrderOf(who, lt)), count, OrderOf(who, lt))
    decreases |moments|
  {
    var keys, order := VisibleKeys(db, t, who), OrderOf(who, lt);
    if moments != [] {
      CanEndUnfolds(|moments|, keys, BoundaryOf(after), count, order);
      if HasMore(keys, BoundaryOf(after), count, order) {
        var rest := PageLeadsOn(c, db, t, who, token, after, count, lt);
        var page := Listing(c, db, t, who, true, token, count, lt);
        if page.Ok? {
          UnchangedWalkEndsIff(c, db, moments[1..], t, who, page.value.next.value, rest, count, lt);
        }
      } else {
        ListingIsPage(c, db, t, who, token, after, count, lt);
      }
    }
  }

  lemma RowsJoin(db: Database, t: Id, who: Reader, ks: seq<Key>, rest: seq<Key>)
    requires forall k <- ks :: k.id in db.messages
    requires forall k <- rest :: k.id in db.messages
    ensures forall k <- ks + rest :: k.id in db.messages
    ensures RowsFor(db, t, who, ks + rest) == RowsFor(db, t, who, ks) + RowsFor(db, t, who, rest)
  {
  }

  lemma {:induction false} JoinedRows(pages: seq<Page<Row>>, keys: seq<seq<Key>>, db: Database, t: Id, who: Reader)
    requires |pages| == |keys|
    requires forall i :: 0 <= i < |pages| ==> IsRowsOf(pages[i], keys[i], db, t, who)
    ensures forall k <- Flatten(keys) :: k.id in db.messages
    ensures AllRows(pages) == RowsFor(db, t, who, Flatten(keys))
  {
    if pages != [] {
      JoinedRows(pages[1..], keys[1..], db, t, who);
      assert IsRowsOf(pages[0], keys[0], db, t, who);
      RowsJoin(db, t, who, keys[0], Flatten(keys[1..]));
    }
  }

  ghost predicate Stored(db: Database, ks: seq<Key>) {
    forall k <- ks :: k.id in db.messages && k == KeyOf(db, k.id)
  }

  lemma SortedAreStored(db: Database, t: Id, who: Reader, order: (Key, Key) -> bool)
    requires StrictTotal(order)
    ensures Stored(db, Sort(VisibleKeys(db, t, who), order))
  {
    var all := Sort(VisibleKeys(db, t, who), order);
    forall k <- all ensures k.id in db.messages && k == KeyOf(db, k.id) {
      assert k in VisibleKeys(db, t, who);
    }
  }

  /**
   On unchanged tables a walk that may make enough requests ends, unless a message
   with an empty id is the last of a full page.  It then has made exactly as many
   requests as the visible messages fill pages, and its pages joined are all of
   them in order.
   */
  lemma UnchangedWalkIsTheList(db: Database, moments: seq<Moment>, t: Id, who: Reader, count: nat, lt: Collation)
    requires StrictTotal(lt) && count >= 1 && ValidDb(db) && Unchanged(moments, db)
    ensures StrictTotal(OrderOf(who, lt)) && Stored(db, Sort(VisibleKeys(db, t, who), OrderOf(who, lt)))
    ensures var visible := VisibleKeys(db, t, who);
            Ended(CURSOR, moments, t, who, [], count, lt) <==>
              |moments| >= PageCount(|visible|, count) && LeadsOn(Sort(visible, OrderOf(who, lt)), count, HasToken)
    ensures var pages := Messages.Walk(CURSOR, moments, t, who, [], count, lt);
            Ended(CURSOR, moments, t, who, [], count, lt) ==>
              && |pages| == PageCount(|VisibleKeys(db, t, who)|, count)
              && AllRows(pages) == RowsFor(db, t, who, Sort(VisibleKeys(db, t, who), OrderOf(who, lt)))
  {
    KeyOrdersAreTotal(lt);
    CursorIsFaithful();
    SortedAreStored(db, t, who, OrderOf(who, lt));
    assert Beyond(VisibleKeys(db, t, who), None, OrderOf(who, lt)) == VisibleKeys(db, t, who);
    UnchangedWalkEndsIff(CURSOR, db, moments, t, who, [], None, count, lt);
    if Ended(CURSOR, moments, t, who, [], count, lt) {
      EndedWalkIsTheList(CURSOR, db, moments, t, who, count, lt);
    }
  }

  lemma EndedWalkIsTheList(c: Codec, db: Database, moments: seq<Moment>, t: Id, who: Reader, count: nat, lt: Collation)
    requires Faithful(c) && StrictTotal(lt) && StrictTotal(OrderOf(who, lt)) && count >= 1 && ValidDb(db)
    requires Unchanged(moments, db) && Ended(c, moments, t, who, [], count, lt)
    requires |moments| >= PageCount(|VisibleKeys(db, t, who)|, count)
    ensures Stored(db, Sort(VisibleKeys(db, t, who), OrderOf(who, lt)))
    ensures var pages := Messages.Walk(c, moments, t, who, [], count, lt);
            && |pages| == PageCount(|VisibleKeys(db, t, who)|, count)
            && AllRows(pages) == RowsFor(db, t, who, Sort(VisibleKeys(db, t, who), OrderOf(who, lt)))
  {
    var tables, order, visible := KeyTables(moments, t, who), OrderOf(who, lt), VisibleKeys(db, t, who);
    SortedAreStored(db, t, who, order);
    assert Beyond(visible, None, order) == visible;
    forall m | m in moments ensures ValidDb(m.db) {
      assert m.db == db;
    }
    forall i | 0 <= i < |tables| ensures tables[i] == visible {
      assert moments[i] == Moment(true, db);
    }
    WalkReadsKeyWalk(c, moments, t, who, [], None, count, lt);
    WalkOfUnchanged(visible, tables, None, count, order);
    var pages, keys := Messages.Walk(c, moments, t, who, [], count, lt), Keyset.Walk(tables, None, count, order);
    forall i | 0 <= i < |pages| ensures IsRowsOf(pages[i], keys[i], db, t, who) {
      assert IsRowsOf(pages[i], keys[i], moments[i].db, t, who);
    }
    JoinedRows(pages, keys, db, t, who);
  }

  /** a comes before b: it is older, or as old and its id smaller. */
  ghost predicate Before(db: Database, lt: Collation, a: Id, b: Id) {
    && a in db.messages && b in db.messages
    && forall us, vs :: IsItsTime(db.messages[a], us) && IsItsTime(db.messages[b], vs) ==>
                          us < vs || (us == vs && lt(a, b))
  }

  lemma KeysInOrder(db: Database, who: Reader, lt: Collation, ks: seq<Key>, a: nat, b: nat)
    requires Stored(db, ks) && Ascending(ks, OrderOf(who, lt)) && a < b < |ks|
    ensures if who.Owner? then Before(db, lt, ks[b].id, ks[a].id) else Before(db, lt, ks[a].id, ks[b].id)
  {
    assert ks[a] in ks && ks[b] in ks;
    assert OrderOf(who, lt)(ks[a], ks[b]);
  }

  /**
   all is exactly the rows the tables say the reader has, each once, newest first for
   the owner and oldest first for a visitor, at one time by id.
   */
  ghost predicate IsReadersList(all: seq<Row>, db: Database, t: Id, who: Reader, lt: Collation) {
    && (forall row :: row in all <==> TablesSay(db, t, who, row))
    && (forall a, b :: 0 <= a < b < |all| ==>
          if who.Owner? then Before(db, lt, all[b].id, all[a].id) else Before(db, lt, all[a].id, all[b].id))
  }

  lemma SortedIsReadersList(db: Database, t: Id, who: Reader, lt: Collation, ks: seq<Key>)
    requires Stored(db, ks) && Ascending(ks, OrderOf(who, lt))
    requires forall k :: k in ks <==> k in VisibleKeys(db, t, who)
    ensures IsReadersList(RowsFor(db, t, who, ks), db, t, who, lt)
  {
    var all := RowsFor(db, t, who, ks);
    forall row ensures row in all <==> TablesSay(db, t, who, row) {
      RowsAreWhatTheTablesSay(db, t, who, row);
      RowIsListedIff(db, t, who, ks, row);
    }
    forall a, b | 0 <= a < b < |all|
      ensures if who.Owner? then Before(db, lt, all[b].id, all[a].id) else Before(db, lt, all[a].id, all[b].id)
    {
      KeysInOrder(db, who, lt, ks, a, b);
    }
  }

  /** In terms of the tables alone: what an ended walk over unchanged tables has returned. */
  lemma UnchangedWalkIsWhatTheTablesSay(db: Database, moments: seq<Moment>, t: Id, who: Reader, count: nat, lt: Collation)
    requires StrictTotal(lt) && count >= 1 && ValidDb(db) && Unchanged(moments, db)
    requires Ended(CURSOR, moments, t, who, [], count, lt)
    ensures IsReadersList(AllRows(Messages.Walk(CURSOR, moments, t, who, [], count, lt)), db, t, who, lt)
  {
    UnchangedWalkIsTheList(db, moments, t, who, count, lt);
    SortedIsReadersList(db, t, who, lt, Sort(VisibleKeys(db, t, who), OrderOf(who, lt)));
  }

  lemma RowIsListedIff(db: Database, t: Id, who: Reader, ks: seq<Key>, row: Row)
    requires Stored(db, ks) && forall k :: k in ks <==> k in VisibleKeys(db, t, who)
    ensures row in RowsFor(db, t, who, ks) <==>
            Reads(db, t, who, row.id) && row == RowFor(db, t, who, KeyOf(db, row.id))
  {
    var rows := RowsFor(db, t, who, ks);
    if row in rows {
      var i :| 0 <= i < |rows| && rows[i] == row;
      assert ks[i] in ks;
    }
    if Reads(db, t, who, row.id) && row == RowFor(db, t, who, KeyOf(db, row.id)) {
      assert KeyOf(db, row.id) in VisibleKeys(db, t, who);
      var i :| 0 <= i < |ks| && ks[i] == KeyOf(db, row.id);
      assert rows[i] == row;
    }
  }

  // ----- what the owner and a visitor see -----

  /** The owner's screen: every page read is put above the ones read before. */
  function Transcript(pages: seq<Page<MessageResponse>>): seq<MessageResponse> {
    if pages == [] then [] else Transcript(pages[1..]) + pages[0].data
  }

  lemma ReverseJoin<T>(xs: seq<T>, ys: seq<T>)
    ensures Reverse(xs + ys) == Reverse(ys) + Reverse(xs)
  {
    var joined, swapped := Reverse(xs + ys), Reverse(ys) + Reverse(xs);
    forall i | 0 <= i < |joined| ensures joined[i] == swapped[i] {
    }
  }

  lemma MappedJoin<A, B>(f: A -> B, xs: seq<A>, ys: seq<A>)
    ensures Mapped(f, xs + ys) == Mapped(f, xs) + Mapped(f, ys)
  {
  }

  lemma {:induction false} TranscriptReverses(pages: seq<Page<Row>>)
    ensures Transcript(Mapped(OwnerPage, pages)) == Reverse(Mapped(Parsed, AllRows(pages)))
  {
    if pages != [] {
      var head, tail := pages[0].data, AllRows(pages[1..]);
      TranscriptReverses(pages[1..]);
      assert Mapped(OwnerPage, pages)[1..] == Mapped(OwnerPage, pages[1..]);
      MappedJoin(Parsed, head, tail);
      ReverseJoin(Mapped(Parsed, head), Mapped(Parsed, tail));
    }
  }

  function OwnerSees(db: Database, t: Id, user: Id, k: Key): MessageResponse
    requires k.id in db.messages
  {
    Parsed(RowFor(db, t, Owner(user), k))
  }

  function VisitorSees(db: Database, t: Id, until: int, k: Key): SharedMessage
    requires k.id in db.messages
  {
    SharedOf(RowFor(db, t, Visitor(until), k))
  }

  /** One after the other, the messages of ks as their owner sees them. */
  ghost predicate ShownToOwner(shown: seq<MessageResponse>, db: Database, t: Id, user: Id, ks: seq<Key>) {
    && Stored(db, ks)
    && |shown| == |ks|
    && forall i :: 0 <= i < |ks| ==> shown[i] == OwnerSees(db, t, user, ks[i])
  }

  lemma RowsAreShown(db: Database, t: Id, user: Id, ks: seq<Key>)
    requires Stored(db, ks)
    ensures ShownToOwner(Mapped(Parsed, RowsFor(db, t, Owner(user), ks)), db, t, user, ks)
  {
  }

  lemma ReverseStored(db: Database, ks: seq<Key>)
    requires Stored(db, ks)
    ensures Stored(db, Reverse(ks))
  {
    forall k <- Reverse(ks) ensures k in ks {
      var i :| 0 <= i < |ks| && Reverse(ks)[i] == k;
      assert k == ks[|ks| - 1 - i];
    }
  }

  lemma ReverseShown(db: Database, t: Id, user: Id, ks: seq<Key>, shown: seq<MessageResponse>)
    requires ShownToOwner(shown, db, t, user, ks)
    ensures ShownToOwner(Reverse(shown), db, t, user, Reverse(ks))
  {
    ReverseStored(db, ks);
    forall i | 0 <= i < |ks| ensures Reverse(shown)[i] == OwnerSees(db, t, user, Reverse(ks)[i]) {
      assert Reverse(ks)[i] == ks[|ks| - 1 - i];
    }
  }

  /**
   Although the pages come newest first and each is reversed on its own, once the
   walk has ended the owner's transcript is the whole visible conversation, oldest
   first, messages of the same moment ordered by id.
   */
  lemma TranscriptIsChronological(db: Database, moments: seq<Moment>, t: Id, user: Id, count: nat, lt: Collation)
    requires StrictTotal(lt) && count >= 1 && ValidDb(db)
    requires Unchanged(moments, db) && Ended(CURSOR, moments, t, Owner(user), [], count, lt)
    ensures StrictTotal(OldestFirst(lt))
    ensures ShownToOwner(
              Transcript(Mapped(OwnerPage, Messages.Walk(CURSOR, moments, t, Owner(user), [], count, lt))),
              db, t, user, Sort(VisibleKeys(db, t, Owner(user)), OldestFirst(lt)))
  {
    KeyOrdersAreTotal(lt);
    UnchangedWalkIsTheList(db, moments, t, Owner(user), count, lt);
    TranscriptReverses(Messages.Walk(CURSOR, moments, t, Owner(user), [], count, lt));
    SortReversed(VisibleKeys(db, t, Owner(user)), NewestFirst(lt), OldestFirst(lt));
    var newest := Sort(VisibleKeys(db, t, Owner(user)), NewestFirst(lt));
    RowsAreShown(db, t, user, newest);
    ReverseShown(db, t, user, newest, Mapped(Parsed, RowsFor(db, t, Owner(user), newest)));
  }

  lemma ReversedAt(all: seq<Row>, i: nat)
    requires i < |all|
    ensures Reverse(Mapped(Parsed, all))[i] == Parsed(all[|all| - 1 - i])
  {
  }

  lemma ReversedHas(all: seq<Row>, m: MessageResponse)
    ensures m in Reverse(Mapped(Parsed, all)) <==> exists row <- all :: m == Parsed(row)
  {
    var shown := Reverse(Mapped(Parsed, all));
    if m in shown {
      var i :| 0 <= i < |shown| && shown[i] == m;
      ReversedAt(all, i);
      assert all[|all| - 1 - i] in all;
    }
    if row :| row in all && m == Parsed(row) {
      var i :| 0 <= i < |all| && all[i] == row;
      ReversedAt(all, |all| - 1 - i);
    }
  }

  /** shown is the responses for exactly the rows the tables say the owner has, oldest first, at one time by id. */
  ghost predicate IsOwnersTranscript(shown: seq<MessageResponse>, db: Database, t: Id, user: Id, lt: Collation) {
    && (forall m :: m in shown <==> exists row :: TablesSay(db, t, Owner(user), row) && m == Parsed(row))
    && (forall a, b :: 0 <= a < b < |shown| ==> Before(db, lt, shown[a].id, shown[b].id))
  }

  lemma ReversedIsOwnersTranscript(db: Database, t: Id, user: Id, lt: Collation, all: seq<Row>)
    requires IsReadersList(all, db, t, Owner(user), lt)
    ensures IsOwnersTranscript(Reverse(Mapped(Parsed, all)), db, t, user, lt)
  {
    var shown := Reverse(Mapped(Parsed, all));
    forall m ensures m in shown <==> exists row :: TablesSay(db, t, Owner(user), row) && m == Parsed(row) {
      ReversedHas(all, m);
    }
    forall a, b | 0 <= a < b < |shown| ensures Before(db, lt, shown[a].id, shown[b].id) {
      ReversedAt(all, a);
      ReversedAt(all, b);
      assert Before(db, lt, all[|all| - 1 - a].id, all[|all| - 1 - b].id);
    }
  }

  /** In terms of the tables alone: what the owner's transcript is once the walk has ended. */
  lemma TranscriptIsWhatTheTablesSay(db: Database, moments: seq<Moment>, t: Id, user: Id, count: nat, lt: Collation)
    requires StrictTotal(lt) && count >= 1 && ValidDb(db) && Unchanged(moments, db)
    requires Ended(CURSOR, moments, t, Owner(user), [], count, lt)
    ensures IsOwnersTranscript(
              Transcript(Mapped(OwnerPage, Messages.Walk(CURSOR, moments, t, Owner(user), [], count, lt))), db, t, user, lt)
  {
    var pages := Messages.Walk(CURSOR, moments, t, Owner(user), [], count, lt);
    UnchangedWalkIsWhatTheTablesSay(db, moments, t, Owner(user), count, lt);
    TranscriptReverses(pages);
    ReversedIsOwnersTranscript(db, t, user, lt, AllRows(pages));
  }

  /** What both readers receive of a message. */
  datatype Both = Both(id: Id, role: Role, text: string, endedStatus: Option<RunStatus>)

  function OfOwner(m: MessageResponse): Both {
    Both(m.id, m.role, m.content, m.endedStatus)
  }

  function OfVisitor(m: SharedMessage): Both {
    Both(m.id, m.role, m.content, m.endedStatus)
  }

  lemma BothSeeTheSame(db: Database, t: Id, user: Id, until: int, k: Key)
    requires k.id in db.messages
    ensures OfOwner(OwnerSees(db, t, user, k)) == OfVisitor(VisitorSees(db, t, until, k))
  {
    ReadersShowTheSameText(RowFor(db, t, Owner(user), k));
  }

  lemma ShownJoin(db: Database, t: Id, user: Id, m: MessageResponse, k: Key, shown: seq<MessageResponse>, ks: seq<Key>)
    requires k.id in db.messages && k == KeyOf(db, k.id) && m == OwnerSees(db, t, user, k)
    requires ShownToOwner(shown, db, t, user, ks)
    ensures ShownToOwner([m] + shown, db, t, user, [k] + ks)
  {
  }

  /** Filtering messages is filtering their keys. */
  lemma {:induction false} FilterShown(db: Database, t: Id, user: Id, ks: seq<Key>, shown: seq<MessageResponse>,
                                       p: MessageResponse -> bool, q: Key -> bool)
    requires ShownToOwner(shown, db, t, user, ks)
    requires forall k <- ks :: p(OwnerSees(db, t, user, k)) <==> q(k)
    ensures ShownToOwner(Filter(p, shown), db, t, user, Filter(q, ks))
  {
    if ks != [] {
      assert ks[0] in ks;
      FilterShown(db, t, user, ks[1..], shown[1..], p, q);
      ShownJoin(db, t, user, shown[0], ks[0], Filter(p, shown[1..]), Filter(q, ks[1..]));
      assert [] + Filter(p, shown[1..]) == Filter(p, shown[1..]) && [] + Filter(q, ks[1..]) == Filter(q, ks[1..]);
    }
  }

  lemma VisitorsKeysAreTheOwners(db: Database, t: Id, user: Id, until: int)
    requires Owns(db, t, user)
    ensures forall k :: k in VisibleKeys(db, t, Visitor(until)) <==>
                        k in VisibleKeys(db, t, Owner(user)) && UpTo(until)(k)
  {
    forall k ensures k in VisibleKeys(db, t, Visitor(until)) <==>
                     k in VisibleKeys(db, t, Owner(user)) && UpTo(until)(k)
    {
      if k in VisibleKeys(db, t, Visitor(until)) {
        assert Reads(db, t, Owner(user), k.id);
      }
      if k in VisibleKeys(db, t, Owner(user)) && UpTo(until)(k) {
        assert Reads(db, t, Visitor(until), k.id);
      }
    }
  }

  function WrittenBy(db: Database, until: int): MessageResponse -> bool {
    (m: MessageResponse) => m.id in db.messages && CreatedAt(db.messages[m.id]) <= until
  }

  function UpTo(until: int): Key -> bool {
    (k: Key) => k.micros <= until
  }

  lemma VisitorsKeysInOrder(db: Database, t: Id, user: Id, until: int, lt: Collation)
    requires StrictTotal(OldestFirst(lt)) && Owns(db, t, user)
    ensures Sort(VisibleKeys(db, t, Visitor(until)), OldestFirst(lt))
            == Filter(UpTo(until), Sort(VisibleKeys(db, t, Owner(user)), OldestFirst(lt)))
  {
    VisitorsKeysAreTheOwners(db, t, user, until);
    SortFiltered(VisibleKeys(db, t, Owner(user)), VisibleKeys(db, t, Visitor(until)), UpTo(until), OldestFirst(lt));
  }

  lemma SharedRowsMatch(db: Database, t: Id, user: Id, until: int, ks: seq<Key>, mine: seq<MessageResponse>)
    requires ShownToOwner(mine, db, t, user, ks)
    ensures Mapped(OfVisitor, Mapped(SharedOf, RowsFor(db, t, Visitor(until), ks))) == Mapped(OfOwner, mine)
  {
    forall i | 0 <= i < |ks|
      ensures OfOwner(mine[i]) == OfVisitor(SharedOf(RowsFor(db, t, Visitor(until), ks)[i]))
    {
      BothSeeTheSame(db, t, user, until, ks[i]);
    }
  }

  /** The visitor's side alone: the conversation up to the link's creation. */
  lemma SharedWalkIsTheList(db: Database, moments: seq<Moment>, t: Id, user: Id, until: int, n: nat, lt: Collation)
    requires StrictTotal(lt) && StrictTotal(OldestFirst(lt)) && n >= 1 && ValidDb(db) && Owns(db, t, user)
    requires Unchanged(moments, db) && Ended(CURSOR, moments, t, Visitor(until), [], n, lt)
    ensures var ks := Filter(UpTo(until), Sort(VisibleKeys(db, t, Owner(user)), OldestFirst(lt)));
            && Stored(db, ks)
            && AllRows(Messages.Walk(CURSOR, moments, t, Visitor(until), [], n, lt)) == RowsFor(db, t, Visitor(until), ks)
  {
    VisitorsKeysInOrder(db, t, user, until, lt);
    UnchangedWalkIsTheList(db, moments, t, Visitor(until), n, lt);
  }

  /**
   The owner and a visitor read one conversation: the complete shared walk is the
   owner's transcript up to the link's creation, message by message with the same
   id, role, text and ended status.
   */
  lemma VisitorsReadTheOwnersConversation(db: Database, owners: seq<Moment>, visitors: seq<Moment>, t: Id, user: Id,
                                          until: int, count: nat, n: nat, lt: Collation)
    requires StrictTotal(lt) && count >= 1 && n >= 1 && ValidDb(db) && Owns(db, t, user)
    requires Unchanged(owners, db) && Ended(CURSOR, owners, t, Owner(user), [], count, lt)
    requires Unchanged(visitors, db) && Ended(CURSOR, visitors, t, Visitor(until), [], n, lt)
    ensures var mine := Transcript(Mapped(OwnerPage, Messages.Walk(CURSOR, owners, t, Owner(user), [], count, lt)));
            var theirs := Mapped(SharedOf, AllRows(Messages.Walk(CURSOR, visitors, t, Visitor(until), [], n, lt)));
            Mapped(OfVisitor, theirs) == Mapped(OfOwner, Filter(WrittenBy(db, until), mine))
  {
    TranscriptIsChronological(db, owners, t, user, count, lt);
    SharedWalkIsTheList(db, visitors, t, user, until, n, lt);
    var ks := Sort(VisibleKeys(db, t, Owner(user)), OldestFirst(lt));
    var mine := Transcript(Mapped(OwnerPage, Messages.Walk(CURSOR, owners, t, Owner(user), [], count, lt)));
    FilterShown(db, t, user, ks, mine, WrittenBy(db, until), UpTo(until));
    SharedRowsMatch(db, t, user, until, Filter(UpTo(until), ks), Filter(WrittenBy(db, until), mine));
  }

  // ----- what a shared page never shows -----

  /** The two databases differ at most in messages written after the bound. */
  ghost predicate AgreeUntil(db: Database, db': Database, until: int) {
    && db'.(messages := db.messages) == db
    && (forall id <- db.messages :: CreatedAt(db.messages[id]) <= until ==>
          id in db'.messages && db'.messages[id] == db.messages[id])
    && (forall id <- db'.messages :: CreatedAt(db'.messages[id]) <= until ==>
          id in db.messages && db.messages[id] == db'.messages[id])
  }

  lemma LaterKeysAreInvisible(db: Database, db': Database, t: Id, until: int)
    requires AgreeUntil(db, db', until)
    ensures VisibleKeys(db', t, Visitor(until)) == VisibleKeys(db, t, Visitor(until))
  {
    var a, b := VisibleKeys(db, t, Visitor(until)), VisibleKeys(db', t, Visitor(until));
    assert forall m :: NamesEndedRun(db, t, m) <==> NamesEndedRun(db', t, m);
    forall k ensures k in a <==> k in b {
      if k in a {
        assert Reads(db', t, Visitor(until), k.id) && k == KeyOf(db', k.id);
      }
      if k in b {
        assert Reads(db, t, Visitor(until), k.id) && k == KeyOf(db, k.id);
      }
    }
  }

  lemma LaterMessagesChangeNoPage(c: Codec, db: Database, db': Database, t: Id, until: int, admitted: bool,
                                  token: Token, count: int, lt: Collation)
    requires StrictTotal(lt) && AgreeUntil(db, db', until)
    ensures Listing(c, db', t, Visitor(until), admitted, token, count, lt)
            == Listing(c, db, t, Visitor(until), admitted, token, count, lt)
  {
    KeyOrdersAreTotal(lt);
    LaterKeysAreInvisible(db, db', t, until);
    if c.decode(token).Ok? && count + 1 >= 0 {
      var after := BoundaryOf(c.decode(token).value);
      var ks := Query(VisibleKeys(db, t, Visitor(until)), after, count + 1, OrderOf(Visitor(until), lt));
      QueriedAreStored(db, t, Visitor(until), after, count + 1, lt);
      forall k | k in ks
        ensures k.id in db'.messages && RowFor(db', t, Visitor(until), k) == RowFor(db, t, Visitor(until), k)
      {
        assert k in VisibleKeys(db, t, Visitor(until));
      }
      assert RowsFor(db', t, Visitor(until), ks) == RowsFor(db, t, Visitor(until), ks);
    }
  }

  /** Messages written after the link was created never change a shared walk, page by page. */
  lemma {:induction false} LaterMessagesAreNeverShared(c: Codec, moments: seq<Moment>, later: seq<Moment>, t: Id, until: int,
                                                       token: Token, count: int, lt: Collation)
    requires StrictTotal(lt) && |later| == |moments|
    requires forall i :: 0 <= i < |moments| ==>
               later[i].admitted == moments[i].admitted && AgreeUntil(moments[i].db, later[i].db, until)
    ensures Messages.Walk(c, later, t, Visitor(until), token, count, lt)
            == Messages.Walk(c, moments, t, Visitor(until), token, count, lt)
    decreases |moments|
  {
    if moments != [] {
      LaterMessagesChangeNoPage(c, moments[0].db, later[0].db, t, until, moments[0].admitted, token, count, lt);
      var page := Listing(c, moments[0].db, t, Visitor(until), moments[0].admitted, token, count, lt);
      if page.Ok? && page.value.next.Some? {
        LaterMessagesAreNeverShared(c, moments[1..], later[1..], t, until, page.value.next.value, count, lt);
      }
    }
  }
}
