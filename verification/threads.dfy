/**
 The thread list and the thread search: a keyset listing on (is_pinned,
 updatedAt, id), newest first, whose cursor is only a thread id.
 */
module Threads {
  import opened Wrappers
  import opened Keyset
  import opened Tables

  datatype PinKey = PinKey(userId: Id, threadId: Id)

  /** pins holds is_deleted of each thread_pin row. */
  datatype ThreadTables = ThreadTables(threads: map<Id, Thread>, pins: map<PinKey, bool>)

  datatype ThreadRow = ThreadRow(id: Id, title: string, isPinned: bool)

  datatype ThreadResponse = ThreadResponse(id: Id, title: string, isPinned: bool)

  datatype ThreadPage = ThreadPage(data: seq<ThreadResponse>, next: Option<Id>)

  datatype Failure = DatabaseError | Panic

  /** A thread's place in the listing. */
  datatype ThreadKey = ThreadKey(pinned: bool, updatedAt: int, id: Id)

  /** title ILIKE a keyword, or no condition at all. */
  type TitleFilter = string -> bool

  // ----- the query -----

  /** COALESCE(p.is_deleted = false, false) over the LEFT JOIN. */
  predicate IsPinned(db: ThreadTables, user: Id, id: Id) {
    var k := PinKey(user, id);
    k in db.pins && !db.pins[k]
  }

  function KeyOfThread(db: ThreadTables, user: Id, id: Id): ThreadKey
    requires id in db.threads
  {
    ThreadKey(IsPinned(db, user, id), db.threads[id].updatedAt, id)
  }

  predicate Listed(db: ThreadTables, user: Id, matches: TitleFilter, id: Id) {
    && id in db.threads
    && db.threads[id].resourceId == user
    && !db.threads[id].deleted
    && matches(db.threads[id].title)
  }

  /** WITH threads. */
  function ListedKeys(db: ThreadTables, user: Id, matches: TitleFilter): set<ThreadKey> {
    set id <- db.threads | Listed(db, user, matches, id) :: KeyOfThread(db, user, id)
  }

  /** The row comparison (is_pinned, updatedAt, id) < (is_pinned, updatedAt, id); false sorts before true. */
  predicate ThreadKeyLess(lt: Collation, a: ThreadKey, b: ThreadKey) {
    if a.pinned != b.pinned then b.pinned
    else if a.updatedAt != b.updatedAt then a.updatedAt < b.updatedAt
    else lt(a.id, b.id)
  }

  /** ORDER BY is_pinned DESC, updatedAt DESC, id DESC. */
  function ListOrder(lt: Collation): (ThreadKey, ThreadKey) -> bool {
    (a: ThreadKey, b: ThreadKey) => ThreadKeyLess(lt, b, a)
  }

  lemma ListOrderIsTotal(lt: Collation)
    requires StrictTotal(lt)
    ensures StrictTotal(ListOrder(lt))
  {
    forall a, b, c ensures OrderLaws(ListOrder(lt), a, b, c) {
      assert OrderLaws(lt, c.id, b.id, a.id) && OrderLaws(lt, a.id, b.id, c.id);
    }
  }

  /**
   The rows the WHERE clause leaves: all without a cursor, and otherwise those
   below the cursor's thread.  The subselect is NULL, and selects nothing, when
   that thread is not listed.
   */
  ghost function Below(db: ThreadTables, user: Id, matches: TitleFilter, cursor: Id, lt: Collation): set<ThreadKey> {
    if cursor == [] then ListedKeys(db, user, matches)
    else if Listed(db, user, matches, cursor)
    then Beyond(ListedKeys(db, user, matches), Some(KeyOfThread(db, user, cursor)), ListOrder(lt))
    else {}
  }

  function RowOf(db: ThreadTables, k: ThreadKey): ThreadRow
    requires k.id in db.threads
  {
    ThreadRow(k.id, db.threads[k.id].title, k.pinned)
  }

  function RowsOf(db: ThreadTables, ks: seq<ThreadKey>): (rows: seq<ThreadRow>)
    requires forall k <- ks :: k.id in db.threads
    ensures |rows| == |ks| && forall i :: 0 <= i < |ks| ==> rows[i] == RowOf(db, ks[i])
  {
    seq(|ks|, i requires 0 <= i < |ks| => RowOf(db, ks[i]))
  }

  lemma SelectedAreListed(db: ThreadTables, user: Id, matches: TitleFilter, s: set<ThreadKey>, n: nat,
                          order: (ThreadKey, ThreadKey) -> bool)
    requires StrictTotal(order) && s <= ListedKeys(db, user, matches)
    ensures forall k <- Take(n, Sort(s, order)) ::
              k in s && Listed(db, user, matches, k.id) && k == KeyOfThread(db, user, k.id)
  {
    var all := Sort(s, order);
    forall k <- Take(n, all) ensures k in s && Listed(db, user, matches, k.id) && k == KeyOfThread(db, user, k.id) {
      assert k in all;
    }
  }

  /** The store's ListThreads and SearchThreads: LIMIT count + 1 fails when negative. */
  ghost function StoreThreads(db: ThreadTables, user: Id, matches: TitleFilter, cursor: Id, count: int, lt: Collation)
    : Option<seq<ThreadRow>>
    requires StrictTotal(lt)
  {
    ListOrderIsTotal(lt);
    if count + 1 < 0 then None
    else
      var below := Below(db, user, matches, cursor, lt);
      SelectedAreListed(db, user, matches, below, count + 1, ListOrder(lt));
      Some(RowsOf(db, Take(count + 1, Sort(below, ListOrder(lt)))))
  }

  // ----- the service -----

  function Responded(row: ThreadRow): ThreadResponse {
    ThreadResponse(row.id, row.title, row.isPinned)
  }

  function Responses(rows: seq<ThreadRow>): (data: seq<ThreadResponse>)
    ensures |data| == |rows| && forall i :: 0 <= i < |rows| ==> data[i] == Responded(rows[i])
  {
    seq(|rows|, i requires 0 <= i < |rows| => Responded(rows[i]))
  }

  /** rows[:count] is out of range below zero, data[len(data)-1] when the trimmed page is empty. */
  function ThreadListResponse(rows: seq<ThreadRow>, count: int): Result<ThreadPage, Failure> {
    if |rows| <= count then Ok(ThreadPage(Responses(rows), None))
    else if count <= 0 then Err(Panic)
    else Ok(ThreadPage(Responses(rows[..count]), Some(rows[count - 1].id)))
  }

  method BuildThreadListResponse(rows0: seq<ThreadRow>, count: int) returns (r: Result<ThreadPage, Failure>)
    ensures r == ThreadListResponse(rows0, count)
  {
    var rows := rows0;
    var hasMore := |rows| > count;
    if hasMore {
      if count < 0 {
        return Err(Panic);
      }
      rows := rows[..count];
    }
    var data: seq<ThreadResponse> := [];
    for i := 0 to |rows|
      invariant data == Responses(rows[..i])
    {
      data := data + [ThreadResponse(rows[i].id, rows[i].title, rows[i].isPinned)];
    }
    assert rows[..|rows|] == rows;
    var next: Option<Id> := None;
    if hasMore {
      if |data| == 0 {
        return Err(Panic);
      }
      next := Some(data[|data| - 1].id);
    }
    r := Ok(ThreadPage(data, next));
  }

  ghost function Threads(db: ThreadTables, user: Id, matches: TitleFilter, cursor: Id, count: int, lt: Collation)
    : Result<ThreadPage, Failure>
    requires StrictTotal(lt)
  {
    match StoreThreads(db, user, matches, cursor, count, lt)
    case None => Err(DatabaseError)
    case Some(rows) => ThreadListResponse(rows, count)
  }

  /**
   agentService.ListThreads and SearchThreads; store is the store's query for this
   user, keyword and count, which may also fail for a reason of its own.
   */
  method ListThreads(ghost db: ThreadTables, ghost user: Id, ghost matches: TitleFilter, ghost lt: Collation,
                     cursor: Id, count: int, store: Id -> Option<seq<ThreadRow>>)
    returns (r: Result<ThreadPage, Failure>)
    requires StrictTotal(lt)
    requires forall c :: store(c).None? || store(c) == StoreThreads(db, user, matches, c, count, lt)
    ensures r == if store(cursor).None? then Err(DatabaseError) else Threads(db, user, matches, cursor, count, lt)
  {
    var answer := store(cursor);
    if answer.None? {
      return Err(DatabaseError);
    }
    r := BuildThreadListResponse(answer.value, count);
  }

  /** A request fails exactly below zero, and at zero when a thread is left to list. */
  lemma FailsExactlyWhen(db: ThreadTables, user: Id, matches: TitleFilter, cursor: Id, count: int, lt: Collation)
    requires StrictTotal(lt)
    ensures Threads(db, user, matches, cursor, count, lt).Err? <==>
            count < 0 || (count == 0 && Below(db, user, matches, cursor, lt) != {})
  {
    ListOrderIsTotal(lt);
    var below := Below(db, user, matches, cursor, lt);
    var all := Sort(below, ListOrder(lt));
    if all != [] {
      assert all[0] in below;
    }
  }

  /** A cursor whose thread is no longer listed reads as the end of the list, whatever is left. */
  lemma UnlistedCursorEndsTheList(db: ThreadTables, user: Id, matches: TitleFilter, cursor: Id, count: nat, lt: Collation)
    requires StrictTotal(lt) && cursor != [] && !Listed(db, user, matches, cursor)
    ensures Threads(db, user, matches, cursor, count, lt) == Ok(ThreadPage([], None))
  {
    ListOrderIsTotal(lt);
    var all := Sort({}, ListOrder(lt));
    assert |all| == 0;
  }

  // ----- one page -----

  /** The boundary a cursor stands for, when its thread is listed. */
  function CursorKey(db: ThreadTables, user: Id, cursor: Id): Option<ThreadKey>
    requires cursor != [] ==> cursor in db.threads
  {
    if cursor == [] then None else Some(KeyOfThread(db, user, cursor))
  }

  ghost predicate IsPageOf(page: ThreadPage, ks: seq<ThreadKey>, db: ThreadTables, user: Id) {
    && (forall k <- ks :: k.id in db.threads && k == KeyOfThread(db, user, k.id))
    && page.data == Responses(RowsOf(db, ks))
  }

  /** What the store fetched, trimmed: for one thread more than count. */
  lemma ThreadsFetches(db: ThreadTables, user: Id, matches: TitleFilter, cursor: Id, below: set<ThreadKey>,
                       count: nat, lt: Collation)
    requires StrictTotal(lt) && StrictTotal(ListOrder(lt))
    requires Below(db, user, matches, cursor, lt) == below
    ensures var fetched := Take(count + 1, Sort(below, ListOrder(lt)));
            && (forall k <- fetched :: k.id in db.threads)
            && Threads(db, user, matches, cursor, count, lt) == ThreadListResponse(RowsOf(db, fetched), count)
  {
    SelectedAreListed(db, user, matches, below, count + 1, ListOrder(lt));
  }

  /** A request with count >= 1 whose cursor selects what lies beyond the boundary: the first count threads of it. */
  lemma OneThreadPage(db: ThreadTables, user: Id, matches: TitleFilter, cursor: Id, boundary: Option<ThreadKey>,
                      count: nat, lt: Collation)
    requires StrictTotal(lt) && StrictTotal(ListOrder(lt)) && count >= 1
    requires Below(db, user, matches, cursor, lt) == Beyond(ListedKeys(db, user, matches), boundary, ListOrder(lt))
    ensures var keys, order := ListedKeys(db, user, matches), ListOrder(lt);
            var ks := Query(keys, boundary, count, order);
            var page := Threads(db, user, matches, cursor, count, lt);
            && page.Ok? && IsPageOf(page.value, ks, db, user)
            && (HasMore(keys, boundary, count, order) ==> |ks| == count && page.value.next == Some(ks[count - 1].id))
            && (!HasMore(keys, boundary, count, order) ==> page.value.next == None)
            && (forall k <- ks :: k in keys && Listed(db, user, matches, k.id))
  {
    var keys, order := ListedKeys(db, user, matches), ListOrder(lt);
    var below := Beyond(keys, boundary, order);
    ThreadsFetches(db, user, matches, cursor, below, count, lt);
    FetchOneMore(keys, boundary, count, order);
    SelectedAreListed(db, user, matches, below, count, order);
    TrimmedPage(db, Take(count + 1, Sort(below, order)), Query(keys, boundary, count, order), count);
  }

  lemma TrimmedPage(db: ThreadTables, fetched: seq<ThreadKey>, ks: seq<ThreadKey>, count: nat)
    requires forall k <- fetched :: k.id in db.threads
    requires count >= 1 && ks == Take(count, fetched)
    ensures forall k <- ks :: k.id in db.threads
    ensures ThreadListResponse(RowsOf(db, fetched), count) ==
            Ok(ThreadPage(Responses(RowsOf(db, ks)), if |fetched| > count then Some(ks[count - 1].id) else None))
  {
    if |fetched| > count {
      assert RowsOf(db, fetched)[..count] == RowsOf(db, ks);
    }
  }

  lemma CursorIsItsBoundary(db: ThreadTables, user: Id, matches: TitleFilter, cursor: Id, lt: Collation)
    requires cursor == [] || Listed(db, user, matches, cursor)
    ensures Below(db, user, matches, cursor, lt)
            == Beyond(ListedKeys(db, user, matches), CursorKey(db, user, cursor), ListOrder(lt))
  {
  }

  // ----- a cursor whose thread may have moved -----

  /** A request at the cursor of a page that ended at k selects exactly the threads now beyond k. */
  ghost predicate StaysPut(db: ThreadTables, user: Id, matches: TitleFilter, k: ThreadKey, lt: Collation) {
    Below(db, user, matches, k.id, lt) == Beyond(ListedKeys(db, user, matches), Some(k), ListOrder(lt))
  }

  /**
   Exactly when it does: the cursor's thread is still listed, did not move down and
   moved up past no listed thread; or it is no longer listed and nothing lies beyond
   k.  (An empty id reads as no cursor: everything listed must lie beyond k.)
   */
  lemma StaysPutIff(db: ThreadTables, user: Id, matches: TitleFilter, k: ThreadKey, lt: Collation)
    requires StrictTotal(lt)
    ensures var order, keys := ListOrder(lt), ListedKeys(db, user, matches);
            StaysPut(db, user, matches, k, lt) <==>
              if k.id == [] then
                forall x <- keys :: order(k, x)
              else if Listed(db, user, matches, k.id) then
                var now := KeyOfThread(db, user, k.id);
                !order(k, now) && !exists x <- keys :: order(now, x) && !order(k, x)
              else
                forall x <- keys :: !order(k, x)
  {
    ListOrderIsTotal(lt);
    var order, keys := ListOrder(lt), ListedKeys(db, user, matches);
    var below, beyond := Below(db, user, matches, k.id, lt), Beyond(keys, Some(k), order);
    if k.id != [] && Listed(db, user, matches, k.id) {
      var now := KeyOfThread(db, user, k.id);
      assert now in keys && OrderLaws(order, now, now, now) && OrderLaws(order, k, now, k);
      assert order(k, now) ==> now in beyond && now !in below;
      forall x <- keys ensures order(now, k) && order(k, x) ==> order(now, x) {
        assert OrderLaws(order, now, k, x);
      }
      assert forall x <- keys :: x in below <==> order(now, x);
      assert forall x <- keys :: x in beyond <==> order(k, x);
    } else if k.id == [] {
      assert forall x <- keys :: x in below;
      assert forall x <- keys :: x in beyond <==> order(k, x);
    } else {
      assert below == {};
      assert forall x <- keys :: x in beyond <==> order(k, x);
    }
  }

  /** A cursor whose thread moved up lists again every thread it moved past. */
  lemma MovedUpCursorListsAgain(db: ThreadTables, user: Id, matches: TitleFilter, k: ThreadKey, x: ThreadKey, lt: Collation)
    requires StrictTotal(lt) && k.id != [] && Listed(db, user, matches, k.id)
    requires ListOrder(lt)(KeyOfThread(db, user, k.id), k)
    ensures var order, keys, now := ListOrder(lt), ListedKeys(db, user, matches), KeyOfThread(db, user, k.id);
            x in Below(db, user, matches, k.id, lt) <==>
              x in Beyond(keys, Some(k), order) || (x in keys && order(now, x) && !order(k, x))
  {
    ListOrderIsTotal(lt);
    assert OrderLaws(ListOrder(lt), KeyOfThread(db, user, k.id), k, x);
  }

  /** One whose thread moved down skips that thread and every thread it moved past. */
  lemma MovedDownCursorSkips(db: ThreadTables, user: Id, matches: TitleFilter, k: ThreadKey, x: ThreadKey, lt: Collation)
    requires StrictTotal(lt) && k.id != [] && Listed(db, user, matches, k.id)
    requires ListOrder(lt)(k, KeyOfThread(db, user, k.id))
    ensures var order, keys, now := ListOrder(lt), ListedKeys(db, user, matches), KeyOfThread(db, user, k.id);
            x in Below(db, user, matches, k.id, lt) <==> x in Beyond(keys, Some(k), order) && order(now, x)
  {
    ListOrderIsTotal(lt);
    assert OrderLaws(ListOrder(lt), k, KeyOfThread(db, user, k.id), x);
  }

  /**
   A thread that a rename or a pin makes the first of the list while it is a walk's
   cursor starts the list over: the next page is the first count of all the other
   threads, the ones already listed included.
   */
  lemma TouchedCursorStartsOver(db: ThreadTables, user: Id, matches: TitleFilter, cursor: Id, count: nat, lt: Collation)
    requires StrictTotal(lt) && count >= 1 && cursor != [] && Listed(db, user, matches, cursor)
    requires forall x <- ListedKeys(db, user, matches) ::
               x.id != cursor ==> ListOrder(lt)(KeyOfThread(db, user, cursor), x)
    ensures StrictTotal(ListOrder(lt))
    ensures var others := ListedKeys(db, user, matches) - {KeyOfThread(db, user, cursor)};
            var page := Threads(db, user, matches, cursor, count, lt);
            && Below(db, user, matches, cursor, lt) == others
            && page.Ok? && IsPageOf(page.value, Take(count, Sort(others, ListOrder(lt))), db, user)
  {
    ListOrderIsTotal(lt);
    var now, keys := KeyOfThread(db, user, cursor), ListedKeys(db, user, matches);
    assert OrderLaws(ListOrder(lt), now, now, now);
    assert forall x <- keys :: x.id == cursor ==> x == now;
    assert Below(db, user, matches, cursor, lt) == keys - {now};
    OneThreadPage(db, user, matches, cursor, Some(now), count, lt);
  }

  // ----- walks -----

  ghost function Walk(moments: seq<ThreadTables>, user: Id, matches: TitleFilter, cursor: Id, count: int, lt: Collation)
    : (pages: seq<ThreadPage>)
    requires StrictTotal(lt)
    ensures |pages| <= |moments|
  {
    if moments == [] then []
    else
      match Threads(moments[0], user, matches, cursor, count, lt)
      case Err(_) => []
      case Ok(page) =>
        if page.next.None? then [page]
        else [page] + Walk(moments[1..], user, matches, page.next.value, count, lt)
  }

  ghost predicate Ended(moments: seq<ThreadTables>, user: Id, matches: TitleFilter, cursor: Id, count: int, lt: Collation)
    requires StrictTotal(lt)
  {
    moments != []
    && match Threads(moments[0], user, matches, cursor, count, lt)
       case Err(_) => false
       case Ok(page) => page.next.Some? ==> Ended(moments[1..], user, matches, page.next.value, count, lt)
  }

  ghost function KeyTables(moments: seq<ThreadTables>, user: Id, matches: TitleFilter): (tables: seq<set<ThreadKey>>)
    ensures |tables| == |moments|
  {
    seq(|moments|, i requires 0 <= i < |moments| => ListedKeys(moments[i], user, matches))
  }

  /** Each cursor the walk follows still selects, at the next request, what lies beyond the page it came from. */
  ghost predicate CursorsStay(moments: seq<ThreadTables>, user: Id, matches: TitleFilter, boundary: Option<ThreadKey>,
                              count: nat, lt: Collation)
    requires StrictTotal(ListOrder(lt)) && count >= 1
    decreases |moments|
  {
    |moments| > 1 && HasMore(ListedKeys(moments[0], user, matches), boundary, count, ListOrder(lt)) ==>
      var last := Query(ListedKeys(moments[0], user, matches), boundary, count, ListOrder(lt))[count - 1];
      && StaysPut(moments[1], user, matches, last, lt)
      && CursorsStay(moments[1..], user, matches, Some(last), count, lt)
  }

  ghost predicate Match(pages: seq<ThreadPage>, keys: seq<seq<ThreadKey>>, moments: seq<ThreadTables>, user: Id) {
    && |pages| == |keys| <= |moments|
    && forall i :: 0 <= i < |pages| ==> IsPageOf(pages[i], keys[i], moments[i], user)
  }

  lemma MatchOneMore(p: ThreadPage, pages: seq<ThreadPage>, ks: seq<ThreadKey>, keys: seq<seq<ThreadKey>>,
                     moments: seq<ThreadTables>, user: Id)
    requires moments != [] && IsPageOf(p, ks, moments[0], user) && Match(pages, keys, moments[1..], user)
    ensures Match([p] + pages, [ks] + keys, moments, user)
  {
  }

  /** The client's walk from the cursor reads the pages of the key walk from the boundary, and ends with it. */
  ghost predicate ReadsKeyWalk(moments: seq<ThreadTables>, user: Id, matches: TitleFilter, cursor: Id,
                               boundary: Option<ThreadKey>, count: nat, lt: Collation)
    requires StrictTotal(lt) && StrictTotal(ListOrder(lt))
  {
    var tables := KeyTables(moments, user, matches);
    && Match(Walk(moments, user, matches, cursor, count, lt), Keyset.Walk(tables, boundary, count, ListOrder(lt)), moments, user)
    && (Ended(moments, user, matches, cursor, count, lt) <==> Finished(tables, boundary, count, ListOrder(lt)))
  }

  /** One request of a client's walk. */
  lemma ClientUnfolds(moments: seq<ThreadTables>, user: Id, matches: TitleFilter, cursor: Id, count: nat, lt: Collation,
                      page: ThreadPage)
    requires StrictTotal(lt) && moments != [] && page.next.Some?
    requires Threads(moments[0], user, matches, cursor, count, lt) == Ok(page)
    ensures Walk(moments, user, matches, cursor, count, lt)
            == [page] + Walk(moments[1..], user, matches, page.next.value, count, lt)
    ensures Ended(moments, user, matches, cursor, count, lt) <==>
            Ended(moments[1..], user, matches, page.next.value, count, lt)
  {
  }

  /** One request of the key walk. */
  lemma KeysUnfold(moments: seq<ThreadTables>, user: Id, matches: TitleFilter, boundary: Option<ThreadKey>,
                   count: nat, lt: Collation, ks: seq<ThreadKey>)
    requires StrictTotal(ListOrder(lt)) && count >= 1 && moments != []
    requires ks == Query(ListedKeys(moments[0], user, matches), boundary, count, ListOrder(lt)) && |ks| == count
    requires HasMore(ListedKeys(moments[0], user, matches), boundary, count, ListOrder(lt))
    ensures var tables, rest := KeyTables(moments, user, matches), KeyTables(moments[1..], user, matches);
            var order, last := ListOrder(lt), Some(ks[count - 1]);
            && Keyset.Walk(tables, boundary, count, order) == [ks] + Keyset.Walk(rest, last, count, order)
            && (Finished(tables, boundary, count, order) <==> Finished(rest, last, count, order))
  {
    var tables := KeyTables(moments, user, matches);
    assert tables[1..] == KeyTables(moments[1..], user, matches);
    WalkUnfolds(tables, boundary, count, ListOrder(lt));
  }

  lemma WalkStops(moments: seq<ThreadTables>, user: Id, matches: TitleFilter, cursor: Id, boundary: Option<ThreadKey>,
                  count: nat, lt: Collation, page: ThreadPage, ks: seq<ThreadKey>)
    requires StrictTotal(lt) && StrictTotal(ListOrder(lt)) && count >= 1 && moments != []
    requires Threads(moments[0], user, matches, cursor, count, lt) == Ok(page)
    requires ks == Query(ListedKeys(moments[0], user, matches), boundary, count, ListOrder(lt))
    requires !HasMore(ListedKeys(moments[0], user, matches), boundary, count, ListOrder(lt))
    requires IsPageOf(page, ks, moments[0], user) && page.next == None
    ensures ReadsKeyWalk(moments, user, matches, cursor, boundary, count, lt)
  {
    WalkUnfolds(KeyTables(moments, user, matches), boundary, count, ListOrder(lt));
    MatchOneMore(page, [], ks, [], moments, user);
  }

  /** While its cursors stay, a client's walk reads exactly the pages of the key walk. */
  lemma {:induction false} WalkReadsKeyWalk(moments: seq<ThreadTables>, user: Id, matches: TitleFilter, cursor: Id,
                                            boundary: Option<ThreadKey>, count: nat, lt: Collation)
    requires StrictTotal(lt) && StrictTotal(ListOrder(lt)) && count >= 1
    requires CursorsStay(moments, user, matches, boundary, count, lt)
    requires moments != [] ==> Below(moments[0], user, matches, cursor, lt)
                               == Beyond(ListedKeys(moments[0], user, matches), boundary, ListOrder(lt))
    ensures ReadsKeyWalk(moments, user, matches, cursor, boundary, count, lt)
    decreases |moments|
  {
    if moments != [] {
      var ks := Query(ListedKeys(moments[0], user, matches), boundary, count, ListOrder(lt));
      var page := Threads(moments[0], user, matches, cursor, count, lt);
      OneThreadPage(moments[0], user, matches, cursor, boundary, count, lt);
      if HasMore(ListedKeys(moments[0], user, matches), boundary, count, ListOrder(lt)) {
        var last := ks[count - 1];
        WalkReadsKeyWalk(moments[1..], user, matches, last.id, Some(last), count, lt);
        ClientUnfolds(moments, user, matches, cursor, count, lt, page.value);
        KeysUnfold(moments, user, matches, boundary, count, lt, ks);
        MatchOneMore(page.value, Walk(moments[1..], user, matches, last.id, count, lt),
                     ks, Keyset.Walk(KeyTables(moments[1..], user, matches), Some(last), count, ListOrder(lt)), moments, user);
      } else {
        WalkStops(moments, user, matches, cursor, boundary, count, lt, page.value, ks);
      }
    }
  }

  function AllThreads(pages: seq<ThreadPage>): seq<ThreadResponse> {
    if pages == [] then [] else pages[0].data + AllThreads(pages[1..])
  }

  /** The keys behind the pages of a walk whose cursors stay, and what is known of them. */
  lemma KeysOfWalk(moments: seq<ThreadTables>, user: Id, matches: TitleFilter, count: nat, lt: Collation)
    returns (keys: seq<seq<ThreadKey>>)
    requires StrictTotal(lt) && StrictTotal(ListOrder(lt)) && count >= 1
    requires CursorsStay(moments, user, matches, None, count, lt)
    ensures keys == Keyset.Walk(KeyTables(moments, user, matches), None, count, ListOrder(lt))
    ensures Match(Walk(moments, user, matches, [], count, lt), keys, moments, user)
    ensures Ended(moments, user, matches, [], count, lt) ==>
              Finished(KeyTables(moments, user, matches), None, count, ListOrder(lt))
    ensures forall i, k :: 0 <= i < |keys| && k in keys[i] ==> k in ListedKeys(moments[i], user, matches)
    ensures forall i :: 0 <= i < |keys| ==> Ascending(keys[i], ListOrder(lt))
    ensures forall i, j, x, y :: 0 <= i < j < |keys| && x in keys[i] && y in keys[j] ==> ListOrder(lt)(x, y)
  {
    var tables := KeyTables(moments, user, matches);
    if moments != [] {
      CursorIsItsBoundary(moments[0], user, matches, [], lt);
    }
    WalkReadsKeyWalk(moments, user, matches, [], None, count, lt);
    WalkAscends(tables, None, count, ListOrder(lt));
    keys := Keyset.Walk(tables, None, count, ListOrder(lt));
    FlattenAscends(keys, ListOrder(lt));
  }

  /** Row a of page i is the thread it was read from. */
  lemma RowIsItsThread(pages: seq<ThreadPage>, keys: seq<seq<ThreadKey>>, moments: seq<ThreadTables>, user: Id,
                       matches: TitleFilter, i: nat, a: nat)
    requires Match(pages, keys, moments, user) && i < |pages| && a < |pages[i].data|
    requires forall k <- keys[i] :: k in ListedKeys(moments[i], user, matches)
    ensures a < |keys[i]| && keys[i][a] in keys[i] && keys[i][a].id == pages[i].data[a].id
    ensures Listed(moments[i], user, matches, pages[i].data[a].id)
    ensures keys[i][a] == KeyOfThread(moments[i], user, pages[i].data[a].id)
  {
    assert IsPageOf(pages[i], keys[i], moments[i], user);
    assert keys[i][a] in keys[i];
  }

  /** The thread is listed at both moments, at the later one further down. */
  predicate MovedDown(db: ThreadTables, later: ThreadTables, user: Id, matches: TitleFilter, id: Id, lt: Collation) {
    && Listed(db, user, matches, id) && Listed(later, user, matches, id)
    && ListOrder(lt)(KeyOfThread(db, user, id), KeyOfThread(later, user, id))
  }

  /** Row a of page i and row b of page j are different rows of one thread. */
  predicate SameThread(pages: seq<ThreadPage>, i: int, j: int, a: int, b: int) {
    && 0 <= i <= j < |pages| && 0 <= a < |pages[i].data| && 0 <= b < |pages[j].data|
    && (i < j || a < b) && pages[i].data[a].id == pages[j].data[b].id
  }

  lemma SameThreadMovedDown(pages: seq<ThreadPage>, keys: seq<seq<ThreadKey>>, moments: seq<ThreadTables>, user: Id,
                            matches: TitleFilter, lt: Collation, i: nat, j: nat, a: nat, b: nat)
    requires StrictTotal(ListOrder(lt)) && Match(pages, keys, moments, user) && SameThread(pages, i, j, a, b)
    requires forall k <- keys[i] :: k in ListedKeys(moments[i], user, matches)
    requires forall k <- keys[j] :: k in ListedKeys(moments[j], user, matches)
    requires Ascending(keys[i], ListOrder(lt))
    requires i < j ==> forall x, y :: x in keys[i] && y in keys[j] ==> ListOrder(lt)(x, y)
    ensures i < j && MovedDown(moments[i], moments[j], user, matches, pages[i].data[a].id, lt)
  {
    RowIsItsThread(pages, keys, moments, user, matches, i, a);
    RowIsItsThread(pages, keys, moments, user, matches, j, b);
    LaterIsBeyond(keys, ListOrder(lt), i, j, a, b);
    assert OrderLaws(ListOrder(lt), keys[i][a], keys[i][a], keys[i][a]);
  }

  /**
   While its cursors stay, whatever happens to the other threads, a walk returns a
   thread a second time only if the thread moved down the list in between.
   */
  lemma ThreadsAreListedOnce(moments: seq<ThreadTables>, user: Id, matches: TitleFilter, count: nat, lt: Collation)
    requires StrictTotal(lt) && StrictTotal(ListOrder(lt)) && count >= 1
    requires CursorsStay(moments, user, matches, None, count, lt)
    ensures var pages := Walk(moments, user, matches, [], count, lt);
            forall i, j, a, b :: SameThread(pages, i, j, a, b) ==>
              i < j && MovedDown(moments[i], moments[j], user, matches, pages[i].data[a].id, lt)
  {
    var pages := Walk(moments, user, matches, [], count, lt);
    var keys := KeysOfWalk(moments, user, matches, count, lt);
    forall i, j, a, b | SameThread(pages, i, j, a, b)
      ensures i < j && MovedDown(moments[i], moments[j], user, matches, pages[i].data[a].id, lt)
    {
      SameThreadMovedDown(pages, keys, moments, user, matches, lt, i, j, a, b);
    }
  }

  lemma InEveryTable(moments: seq<ThreadTables>, user: Id, matches: TitleFilter, n: nat, k: ThreadKey)
    requires n <= |moments| && forall j :: 0 <= j < n ==> k in ListedKeys(moments[j], user, matches)
    ensures forall s <- KeyTables(moments, user, matches)[..n] :: k in s
  {
    var tables := KeyTables(moments, user, matches);
    forall s <- tables[..n] ensures k in s {
      var j :| 0 <= j < n && tables[j] == s;
    }
  }

  lemma PageHolds(pages: seq<ThreadPage>, keys: seq<seq<ThreadKey>>, moments: seq<ThreadTables>, user: Id, i: nat,
                  k: ThreadKey) returns (a: nat)
    requires Match(pages, keys, moments, user) && i < |pages| && k in keys[i]
    ensures k.id in moments[i].threads
    ensures a < |pages[i].data| && pages[i].data[a] == Responded(RowOf(moments[i], k))
  {
    assert IsPageOf(pages[i], keys[i], moments[i], user);
    a :| 0 <= a < |keys[i]| && keys[i][a] == k;
  }

  /** And when it ends it has returned every thread that was listed, at one place, at each of its requests. */
  lemma NoThreadMissed(moments: seq<ThreadTables>, user: Id, matches: TitleFilter, count: nat, lt: Collation, k: ThreadKey)
    returns (i: nat, a: nat)
    requires StrictTotal(lt) && StrictTotal(ListOrder(lt)) && count >= 1
    requires CursorsStay(moments, user, matches, None, count, lt)
    requires Ended(moments, user, matches, [], count, lt)
    requires forall j :: 0 <= j < |Walk(moments, user, matches, [], count, lt)| ==>
               k in ListedKeys(moments[j], user, matches)
    ensures var pages := Walk(moments, user, matches, [], count, lt);
            && i < |pages| && a < |pages[i].data|
            && k.id in moments[i].threads
            && pages[i].data[a] == Responded(RowOf(moments[i], k))
  {
    var pages, tables := Walk(moments, user, matches, [], count, lt), KeyTables(moments, user, matches);
    var keys := KeysOfWalk(moments, user, matches, count, lt);
    InEveryTable(moments, user, matches, |pages|, k);
    WalkIsComplete(tables, None, count, ListOrder(lt), k);
    i := FlattenFrom(keys, k);
    a := PageHolds(pages, keys, moments, user, i, k);
  }

  /** An empty cursor means the first page, so a thread whose id is empty cannot be followed. */
  predicate CanFollow(k: ThreadKey) {
    k.id != []
  }

  /** The listed threads below the cursor, in order. */
  ghost function Left(db: ThreadTables, user: Id, matches: TitleFilter, cursor: Id, lt: Collation): seq<ThreadKey>
    requires StrictTotal(ListOrder(lt)) && (cursor == [] || Listed(db, user, matches, cursor))
  {
    Sort(Beyond(ListedKeys(db, user, matches), CursorKey(db, user, cursor), ListOrder(lt)), ListOrder(lt))
  }

  lemma LeftAreListed(db: ThreadTables, user: Id, matches: TitleFilter, cursor: Id, lt: Collation)
    requires StrictTotal(ListOrder(lt)) && (cursor == [] || Listed(db, user, matches, cursor))
    ensures forall k <- Left(db, user, matches, cursor, lt) ::
              Listed(db, user, matches, k.id) && k == KeyOfThread(db, user, k.id)
  {
    var s := Beyond(ListedKeys(db, user, matches), CursorKey(db, user, cursor), ListOrder(lt));
    SelectedAreListed(db, user, matches, s, |Sort(s, ListOrder(lt))|, ListOrder(lt));
  }

  /** One request of a walk over unchanged tables, with more threads to come: where it leads. */
  lemma OneUnchangedPage(db: ThreadTables, user: Id, matches: TitleFilter, cursor: Id, count: nat, lt: Collation)
    requires StrictTotal(lt) && StrictTotal(ListOrder(lt)) && count >= 1
    requires cursor == [] || Listed(db, user, matches, cursor)
    requires |Left(db, user, matches, cursor, lt)| > count
    ensures var left, page := Left(db, user, matches, cursor, lt), Threads(db, user, matches, cursor, count, lt);
            var last := left[count - 1];
            && page.Ok? && IsPageOf(page.value, left[..count], db, user) && page.value.next == Some(last.id)
            && Listed(db, user, matches, last.id)
            && (last.id != [] ==>
                  && Left(db, user, matches, last.id, lt) == left[count..]
                  && PageCount(|left|, count) == 1 + PageCount(|left[count..]|, count))
  {
    var keys, boundary := ListedKeys(db, user, matches), CursorKey(db, user, cursor);
    var left := Left(db, user, matches, cursor, lt);
    CursorIsItsBoundary(db, user, matches, cursor, lt);
    OneThreadPage(db, user, matches, cursor, boundary, count, lt);
    LeftAreListed(db, user, matches, cursor, lt);
    assert left[count - 1] in left;
    RestOfUnchanged(keys, boundary, count, ListOrder(lt));
  }

  lemma LastUnchangedPage(db: ThreadTables, user: Id, matches: TitleFilter, cursor: Id, count: nat, lt: Collation)
    requires StrictTotal(lt) && StrictTotal(ListOrder(lt)) && count >= 1
    requires cursor == [] || Listed(db, user, matches, cursor)
    requires |Left(db, user, matches, cursor, lt)| <= count
    ensures var left, page := Left(db, user, matches, cursor, lt), Threads(db, user, matches, cursor, count, lt);
            page.Ok? && IsPageOf(page.value, left, db, user) && page.value.next == None
  {
    CursorIsItsBoundary(db, user, matches, cursor, lt);
    OneThreadPage(db, user, matches, cursor, CursorKey(db, user, cursor), count, lt);
  }

  lemma ResponsesJoin(db: ThreadTables, ks: seq<ThreadKey>, rest: seq<ThreadKey>)
    requires (forall k <- ks :: k.id in db.threads) && (forall k <- rest :: k.id in db.threads)
    ensures forall k <- ks + rest :: k.id in db.threads
    ensures Responses(RowsOf(db, ks + rest)) == Responses(RowsOf(db, ks)) + Responses(RowsOf(db, rest))
  {
  }

  /** The rest of the walk from the cursor, over the unchanged tables, is the list of what is left. */
  ghost predicate WalksAll(db: ThreadTables, moments: seq<ThreadTables>, user: Id, matches: TitleFilter, cursor: Id,
                           left: seq<ThreadKey>, count: nat, lt: Collation)
    requires StrictTotal(lt) && count >= 1 && forall k <- left :: k.id in db.threads
  {
    var pages := Walk(moments, user, matches, cursor, count, lt);
    && (Ended(moments, user, matches, cursor, count, lt) <==> |moments| >= PageCount(|left|, count))
    && (|moments| >= PageCount(|left|, count) ==>
          |pages| == PageCount(|left|, count) && AllThreads(pages) == Responses(RowsOf(db, left)))
  }

  lemma PagesJoin(page: ThreadPage, rest: seq<ThreadPage>)
    ensures AllThreads([page] + rest) == page.data + AllThreads(rest)
  {
    assert ([page] + rest)[1..] == rest;
  }

  lemma OnlyPage(db: ThreadTables, moments: seq<ThreadTables>, user: Id, matches: TitleFilter, cursor: Id,
                 left: seq<ThreadKey>, page: ThreadPage, count: nat, lt: Collation)
    requires StrictTotal(lt) && count >= 1 && moments != [] && moments[0] == db && |left| <= count
    requires forall k <- left :: k.id in db.threads
    requires Threads(db, user, matches, cursor, count, lt) == Ok(page) && page.next == None
    requires IsPageOf(page, left, db, user)
    ensures WalksAll(db, moments, user, matches, cursor, left, count, lt)
  {
    assert [page][1..] == [];
  }

  lemma {:induction false} UnchangedWalkFrom(db: ThreadTables, moments: seq<ThreadTables>, user: Id, matches: TitleFilter,
                                             cursor: Id, count: nat, lt: Collation)
    requires StrictTotal(lt) && StrictTotal(ListOrder(lt)) && count >= 1
    requires forall i :: 0 <= i < |moments| ==> moments[i] == db
    requires cursor == [] || Listed(db, user, matches, cursor)
    requires LeadsOn(Left(db, user, matches, cursor, lt), count, CanFollow)
    ensures forall k <- Left(db, user, matches, cursor, lt) :: k.id in db.threads
    ensures WalksAll(db, moments, user, matches, cursor, Left(db, user, matches, cursor, lt), count, lt)
    decreases |moments|
  {
    var left := Left(db, user, matches, cursor, lt);
    LeftAreListed(db, user, matches, cursor, lt);
    if moments != [] {
      var page := Threads(db, user, matches, cursor, count, lt);
      if |left| > count {
        var last := left[count - 1];
        OneUnchangedPage(db, user, matches, cursor, count, lt);
        UnchangedWalkFrom(db, moments[1..], user, matches, last.id, count, lt);
        ClientUnfolds(moments, user, matches, cursor, count, lt, page.value);
        PagesJoin(page.value, Walk(moments[1..], user, matches, last.id, count, lt));
        ResponsesJoin(db, left[..count], left[count..]);
        SplitAt(left, count);
      } else {
        LastUnchangedPage(db, user, matches, cursor, count, lt);
        OnlyPage(db, moments, user, matches, cursor, left, page.value, count, lt);
      }
    }
  }

  /** A walk that cannot get past a thread with an empty id starts over at it, again and again. */
  lemma {:induction false} StuckWalkNeverEnds(db: ThreadTables, moments: seq<ThreadTables>, user: Id, matches: TitleFilter,
                                              cursor: Id, count: nat, lt: Collation)
    requires StrictTotal(lt) && StrictTotal(ListOrder(lt)) && count >= 1
    requires forall i :: 0 <= i < |moments| ==> moments[i] == db
    requires cursor == [] || Listed(db, user, matches, cursor)
    requires !LeadsOn(Left(db, user, matches, [], lt), count, CanFollow)
    requires !LeadsOn(Left(db, user, matches, cursor, lt), count, CanFollow)
    ensures !Ended(moments, user, matches, cursor, count, lt)
    decreases |moments|
  {
    if moments != [] {
      OneUnchangedPage(db, user, matches, cursor, count, lt);
      StuckWalkNeverEnds(db, moments[1..], user, matches, Left(db, user, matches, cursor, lt)[count - 1].id, count, lt);
    }
  }

  /**
   On unchanged tables a walk that may make enough requests ends, unless a thread
   with an empty id is the last of a full page.  It then has made exactly the
   requests its threads fill and listed each matching undeleted thread once:
   pinned first, then the newest update, then the id.
   */
  lemma UnchangedWalkIsTheList(db: ThreadTables, moments: seq<ThreadTables>, user: Id, matches: TitleFilter,
                               count: nat, lt: Collation)
    requires StrictTotal(lt) && count >= 1
    requires forall i :: 0 <= i < |moments| ==> moments[i] == db
    ensures StrictTotal(ListOrder(lt))
    ensures var ks := Sort(ListedKeys(db, user, matches), ListOrder(lt));
            var pages := Walk(moments, user, matches, [], count, lt);
            && (forall k <- ks :: Listed(db, user, matches, k.id) && k == KeyOfThread(db, user, k.id))
            && (Ended(moments, user, matches, [], count, lt) <==>
                  |moments| >= PageCount(|ks|, count) && LeadsOn(ks, count, CanFollow))
            && (Ended(moments, user, matches, [], count, lt) ==>
                  |pages| == PageCount(|ks|, count) && AllThreads(pages) == Responses(RowsOf(db, ks)))
  {
    ListOrderIsTotal(lt);
    var listed := ListedKeys(db, user, matches);
    assert Beyond(listed, None, ListOrder(lt)) == listed;
    LeftAreListed(db, user, matches, [], lt);
    if LeadsOn(Sort(listed, ListOrder(lt)), count, CanFollow) {
      UnchangedWalkFrom(db, moments, user, matches, [], count, lt);
    } else {
      StuckWalkNeverEnds(db, moments, user, matches, [], count, lt);
    }
  }

  /** Pinned threads first, then the newest update, then the greater id. */
  lemma ListOrderMeans(db: ThreadTables, user: Id, matches: TitleFilter, lt: Collation, a: nat, b: nat)
    requires StrictTotal(lt) && StrictTotal(ListOrder(lt))
    requires a < b < |Sort(ListedKeys(db, user, matches), ListOrder(lt))|
    ensures var ks := Sort(ListedKeys(db, user, matches), ListOrder(lt));
            var x, y := ks[a], ks[b];
            && x.id in db.threads && y.id in db.threads
            && (IsPinned(db, user, y.id) ==> IsPinned(db, user, x.id))
            && (IsPinned(db, user, x.id) == IsPinned(db, user, y.id) ==>
                  && db.threads[x.id].updatedAt >= db.threads[y.id].updatedAt
                  && (db.threads[x.id].updatedAt == db.threads[y.id].updatedAt ==> lt(y.id, x.id)))
  {
    var listed := ListedKeys(db, user, matches);
    var ks := Sort(listed, ListOrder(lt));
    SelectedAreListed(db, user, matches, listed, |ks|, ListOrder(lt));
    assert ks[a] in ks && ks[b] in ks;
  }

  // ----- what is listed, in terms of the tables alone -----

  /** The thread of the response is the user's, not deleted and matching, and the response shows its title and its pin. */
  predicate TablesSay(db: ThreadTables, user: Id, matches: TitleFilter, r: ThreadResponse) {
    && (r.isPinned <==> PinKey(user, r.id) in db.pins && !db.pins[PinKey(user, r.id)])
    && r.id in db.threads
    && var thread := db.threads[r.id];
       && thread.resourceId == user && !thread.deleted && matches(thread.title)
       && r.title == thread.title
  }

  lemma ResponsesAreWhatTheTablesSay(db: ThreadTables, user: Id, matches: TitleFilter, r: ThreadResponse)
    ensures TablesSay(db, user, matches, r) <==>
            exists k <- ListedKeys(db, user, matches) :: k.id in db.threads && r == Responded(RowOf(db, k))
  {
    if TablesSay(db, user, matches, r) {
      var k := KeyOfThread(db, user, r.id);
      assert Listed(db, user, matches, r.id) && k in ListedKeys(db, user, matches);
    }
  }

  lemma ResponseIsListedIff(db: ThreadTables, ks: seq<ThreadKey>, r: ThreadResponse)
    requires forall k <- ks :: k.id in db.threads
    ensures r in Responses(RowsOf(db, ks)) <==> exists k <- ks :: r == Responded(RowOf(db, k))
  {
    var data := Responses(RowsOf(db, ks));
    if r in data {
      var i :| 0 <= i < |data| && data[i] == r;
      assert ks[i] in ks;
    }
    if k :| k in ks && r == Responded(RowOf(db, k)) {
      var i :| 0 <= i < |ks| && ks[i] == k;
      assert data[i] == r;
    }
  }

  lemma TrimmedIn(rows: seq<ThreadRow>, count: int, page: ThreadPage, r: ThreadResponse)
    requires ThreadListResponse(rows, count) == Ok(page) && r in page.data
    ensures r in Responses(rows)
  {
    var i :| 0 <= i < |page.data| && page.data[i] == r;
    assert Responses(rows)[i] == r;
  }

  /** Whatever the cursor and the count, a page holds only what the tables say. */
  lemma PageIsWhatTheTablesSay(db: ThreadTables, user: Id, matches: TitleFilter, cursor: Id, count: int, lt: Collation)
    requires StrictTotal(lt)
    ensures var page := Threads(db, user, matches, cursor, count, lt);
            page.Ok? ==> forall r <- page.value.data :: TablesSay(db, user, matches, r)
  {
    ListOrderIsTotal(lt);
    var page := Threads(db, user, matches, cursor, count, lt);
    if page.Ok? {
      var below := Below(db, user, matches, cursor, lt);
      var fetched := Take(count + 1, Sort(below, ListOrder(lt)));
      SelectedAreListed(db, user, matches, below, count + 1, ListOrder(lt));
      forall r <- page.value.data ensures TablesSay(db, user, matches, r) {
        TrimmedIn(RowsOf(db, fetched), count, page.value, r);
        ResponseIsListedIff(db, fetched, r);
        ResponsesAreWhatTheTablesSay(db, user, matches, r);
      }
    }
  }

  /** a comes before b: pinned before not pinned, then the newer update, then the greater id. */
  ghost predicate Before(db: ThreadTables, lt: Collation, a: ThreadResponse, b: ThreadResponse) {
    && a.id in db.threads && b.id in db.threads
    && var x, y := db.threads[a.id].updatedAt, db.threads[b.id].updatedAt;
       if a.isPinned != b.isPinned then a.isPinned
       else y < x || (x == y && lt(b.id, a.id))
  }

  /**
   An ended walk over unchanged tables has returned exactly the responses the tables
   say the user has, each once: pinned first, then the newest update, then the id.
   */
  lemma UnchangedWalkIsWhatTheTablesSay(db: ThreadTables, moments: seq<ThreadTables>, user: Id, matches: TitleFilter,
                                        count: nat, lt: Collation)
    requires StrictTotal(lt) && count >= 1
    requires forall i :: 0 <= i < |moments| ==> moments[i] == db
    requires Ended(moments, user, matches, [], count, lt)
    ensures var all := AllThreads(Walk(moments, user, matches, [], count, lt));
            && (forall r :: r in all <==> TablesSay(db, user, matches, r))
            && (forall a, b :: 0 <= a < b < |all| ==> all[a].id != all[b].id && Before(db, lt, all[a], all[b]))
  {
    UnchangedWalkIsTheList(db, moments, user, matches, count, lt);
    var ks := Sort(ListedKeys(db, user, matches), ListOrder(lt));
    var all := AllThreads(Walk(moments, user, matches, [], count, lt));
    forall r ensures r in all <==> TablesSay(db, user, matches, r) {
      ResponsesAreWhatTheTablesSay(db, user, matches, r);
      ResponseIsListedIff(db, ks, r);
    }
    forall a, b | 0 <= a < b < |all| ensures all[a].id != all[b].id && Before(db, lt, all[a], all[b]) {
      assert ks[a] in ks && ks[b] in ks;
      assert ListOrder(lt)(ks[a], ks[b]);
      assert OrderLaws(ListOrder(lt), ks[a], ks[a], ks[a]);
    }
  }
}
