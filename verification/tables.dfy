/**
 The tables the SDK reads, with the primary keys of the schema as map keys, and
 what the store's message queries mean: joins, the ended-run filter, ORDER BY
 and LIMIT.
 */
module Tables {
  import opened Wrappers
  import opened Keyset
  import opened References
  import Cursor
  import Base64Url

  type Id = Base64Url.Bytes
  type RunId = string

  datatype Role = User | Assistant | OtherRole(name: string)

  datatype RunStatus = Running | Completing | Completed | Stopped | Superseded | Failed

  datatype Cleanup = NotNeeded | Pending | CleanedUp | CleanupFailed

  datatype WorkflowStep = WorkflowStep(id: string, displayName: string)

  /**
   A stored tool call.  innerSteps and displayName are what the display-name
   tables make of its arguments and result.
   */
  datatype Tool = Tool(
    state: string, name: string, callId: string, displayName: string,
    innerSteps: seq<WorkflowStep>, result: Option<ToolResult>)

  /** A part of a V2 message content. */
  datatype Part =
    | Text(text: string)
    | File(data: string)
    | ToolInvocation(tool: Option<Tool>)
    | OtherPart

  /**
   A content column: its raw text, the V2 value it parses to (None when it does
   not parse), and the text at metadata.stream_run_id (None when the column is not
   valid jsonb or has no such text).
   */
  datatype Content = Content(raw: string, parsed: Option<V2>, streamRunId: Option<RunId>)

  datatype V2 = V2(format: int, parts: seq<Part>)

  datatype Thread = Thread(resourceId: Id, title: string, updatedAt: int, deleted: bool)

  /** Timestamps are microseconds; createdAt is read as UTC. */
  datatype Message = Message(threadId: Id, role: Role, content: Content, createdAtZ: Option<int>, createdAt: int)

  datatype Run = Run(userId: Id, threadId: Id, status: RunStatus, cleanup: Cleanup)

  datatype FeedbackKey = FeedbackKey(messageId: Id, threadId: Id, userId: Id)

  datatype ShareLink = ShareLink(referenceId: Id, createdAt: int, deleted: bool)

  datatype Database = Database(
    threads: map<Id, Thread>,
    messages: map<Id, Message>,
    runs: map<RunId, Run>,
    feedback: map<FeedbackKey, string>,
    links: map<Id, ShareLink>)

  /** messageCreatedAt: the one timestamp every message list orders, pages and bounds on. */
  function CreatedAt(m: Message): int {
    if m.createdAtZ.Some? then m.createdAtZ.value else m.createdAt
  }

  /** lower() on the characters a run id can be written with. */
  function Lower(s: string): (t: string)
    ensures |t| == |s|
  {
    seq(|s|, i requires 0 <= i < |s| => if 'A' <= s[i] <= 'Z' then s[i] - 'A' + 'a' else s[i])
  }

  predicate SameLetter(a: char, b: char) {
    || a == b
    || ('A' <= a <= 'Z' && b == a - 'A' + 'a')
    || ('A' <= b <= 'Z' && a == b - 'A' + 'a')
  }

  predicate IsLower(s: string) {
    forall i :: 0 <= i < |s| ==> !('A' <= s[i] <= 'Z')
  }

  /** A run id is matched whatever its letter case: lower() equates exactly the spellings that differ in case. */
  lemma LowerIgnoresCase(s: string, t: string)
    ensures IsLower(Lower(s))
    ensures Lower(s) == Lower(t) <==> |s| == |t| && forall i :: 0 <= i < |s| ==> SameLetter(s[i], t[i])
    ensures IsLower(s) ==> Lower(s) == s
  {
    if |s| == |t| && forall i :: 0 <= i < |s| ==> SameLetter(s[i], t[i]) {
      assert forall i :: 0 <= i < |s| ==> Lower(s)[i] == Lower(t)[i];
    }
    if Lower(s) == Lower(t) {
      forall i | 0 <= i < |s| ensures SameLetter(s[i], t[i]) {
        assert Lower(s)[i] == Lower(t)[i];
      }
    }
  }

  /** The CHECK constraint of stream_runs. */
  predicate RunOk(r: Run) {
    match r.status
    case Running => r.cleanup.NotNeeded?
    case Completing => r.cleanup.NotNeeded?
    case Completed => r.cleanup.NotNeeded?
    case Stopped => !r.cleanup.NotNeeded?
    case Superseded => !r.cleanup.NotNeeded?
    case Failed => true
  }

  /** What Postgres guarantees: the constraint, and timestamps whose microseconds fit 64 bits. */
  ghost predicate ValidDb(db: Database) {
    && (forall r <- db.runs :: RunOk(db.runs[r]))
    && (forall id <- db.messages :: Cursor.Int64(CreatedAt(db.messages[id])))
  }

  // ----- the ended-run filter, as its SQL joins -----

  /** WITH ended_runs: the thread owner's runs in this thread that did not complete normally. */
  function EndedRuns(db: Database, t: Id): set<RunId> {
    set r <- db.runs |
      && db.runs[r].threadId == t
      && t in db.threads
      && db.runs[r].userId == db.threads[t].resourceId
      && !db.runs[r].cleanup.NotNeeded?
  }

  /** message_run.run_id: the content is looked at only when the thread has an ended run. */
  function MessageRun(db: Database, t: Id, m: Message): Option<RunId> {
    if EndedRuns(db, t) != {} && m.content.streamRunId.Some?
    then Some(Lower(m.content.streamRunId.value))
    else None
  }

  /** LEFT JOIN: one row per match, a single null row when there is none. */
  predicate LeftJoined<A(==)>(joined: Option<A>, matches: set<A>) {
    if matches == {} then joined.None? else joined.Some? && joined.value in matches
  }

  function RunMatches(db: Database, t: Id, m: Message): set<RunId> {
    set r <- EndedRuns(db, t) | MessageRun(db, t, m) == Some(r)
  }

  function FeedbackMatches(db: Database, t: Id, user: Id, id: Id): set<FeedbackKey> {
    set k <- db.feedback | k.messageId == id && k.userId == user && k.threadId == t
  }

  /** A result row before projection: the message and the keys of the rows joined to it. */
  datatype Joined = Joined(id: Id, feedback: Option<FeedbackKey>, run: Option<RunId>)

  /** WHERE m.thread_id = t AND m.role IN (...) AND (m.role = 'user' OR er.run_id IS NULL). */
  predicate Selected(db: Database, t: Id, id: Id, run: Option<RunId>) {
    && id in db.messages
    && db.messages[id].threadId == t
    && !db.messages[id].role.OtherRole?
    && (db.messages[id].role.User? || run.None?)
  }

  /** JOIN mastra_threads: only the owner's own, undeleted thread. */
  predicate Owns(db: Database, t: Id, user: Id) {
    t in db.threads && db.threads[t].resourceId == user && !db.threads[t].deleted
  }

  ghost predicate OwnerRow(db: Database, t: Id, user: Id, j: Joined) {
    && Owns(db, t, user)
    && Selected(db, t, j.id, j.run)
    && LeftJoined(j.run, RunMatches(db, t, db.messages[j.id]))
    && LeftJoined(j.feedback, FeedbackMatches(db, t, user, j.id))
  }

  ghost predicate SharedRow(db: Database, t: Id, until: int, j: Joined) {
    && Selected(db, t, j.id, j.run)
    && CreatedAt(db.messages[j.id]) <= until
    && LeftJoined(j.run, RunMatches(db, t, db.messages[j.id]))
    && j.feedback.None?
  }

  // ----- what the joins amount to -----

  /** The content names, in any letter case, an ended run of the thread's owner in the thread. */
  predicate NamesEndedRun(db: Database, t: Id, m: Message) {
    && m.content.streamRunId.Some?
    && var r := Lower(m.content.streamRunId.value);
       && r in db.runs
       && db.runs[r].threadId == t
       && t in db.threads
       && db.runs[r].userId == db.threads[t].resourceId
       && db.runs[r].cleanup != NotNeeded
  }

  /** A message a list shows: assistant messages of ended runs are hidden, user messages never. */
  predicate Shown(db: Database, t: Id, id: Id) {
    && id in db.messages
    && db.messages[id].threadId == t
    && (db.messages[id].role.User? || (db.messages[id].role.Assistant? && !NamesEndedRun(db, t, db.messages[id])))
  }

  /** The status a row carries: the ended run's, on user messages only. */
  function EndedStatus(db: Database, t: Id, m: Message): Option<RunStatus> {
    if m.role.User? && NamesEndedRun(db, t, m)
    then Some(db.runs[Lower(m.content.streamRunId.value)].status)
    else None
  }

  function JoinedRun(db: Database, t: Id, m: Message): Option<RunId> {
    if NamesEndedRun(db, t, m) then Some(Lower(m.content.streamRunId.value)) else None
  }

  function JoinedFeedback(db: Database, t: Id, user: Id, id: Id): Option<FeedbackKey> {
    var k := FeedbackKey(id, t, user);
    if k in db.feedback then Some(k) else None
  }

  lemma RunMatchesAre(db: Database, t: Id, m: Message)
    ensures RunMatches(db, t, m) ==
            if NamesEndedRun(db, t, m) then {Lower(m.content.streamRunId.value)} else {}
  {
    if NamesEndedRun(db, t, m) {
      assert Lower(m.content.streamRunId.value) in EndedRuns(db, t);
    }
  }

  lemma FeedbackMatchesAre(db: Database, t: Id, user: Id, id: Id)
    ensures var k := FeedbackKey(id, t, user);
            FeedbackMatches(db, t, user, id) == if k in db.feedback then {k} else {}
  {
  }

  /**
   The owner's joins neither duplicate nor drop: the result has exactly one row
   for each shown message of an owned thread, and no other row.
   */
  lemma OwnerRowsAreTheShownMessages(db: Database, t: Id, user: Id, j: Joined)
    ensures OwnerRow(db, t, user, j) <==>
            && Owns(db, t, user)
            && Shown(db, t, j.id)
            && j == Joined(j.id, JoinedFeedback(db, t, user, j.id), JoinedRun(db, t, db.messages[j.id]))
  {
    if j.id in db.messages {
      RunMatchesAre(db, t, db.messages[j.id]);
      FeedbackMatchesAre(db, t, user, j.id);
    }
  }

  lemma SharedRowsAreTheShownMessages(db: Database, t: Id, until: int, j: Joined)
    ensures SharedRow(db, t, until, j) <==>
            && Shown(db, t, j.id)
            && CreatedAt(db.messages[j.id]) <= until
            && j == Joined(j.id, None, JoinedRun(db, t, db.messages[j.id]))
  {
    if j.id in db.messages {
      RunMatchesAre(db, t, db.messages[j.id]);
    }
  }

  /** CASE WHEN m.role = 'user' THEN er.status END, over the joined run. */
  function StatusColumn(db: Database, m: Message, run: Option<RunId>): Option<RunStatus>
    requires run.Some? ==> run.value in db.runs
  {
    if m.role.User? && run.Some? then Some(db.runs[run.value].status) else None
  }

  /**
   A carried status is the status of the ended run the user message names, and
   under the table's constraint it is stopped, superseded or failed.
   */
  lemma EndedStatusIsTheRunsStatus(db: Database, t: Id, m: Message)
    ensures StatusColumn(db, m, JoinedRun(db, t, m)) == EndedStatus(db, t, m)
    ensures EndedStatus(db, t, m).Some? <==> m.role.User? && NamesEndedRun(db, t, m)
    ensures ValidDb(db) && EndedStatus(db, t, m).Some? ==>
              EndedStatus(db, t, m).value in {Stopped, Superseded, Failed}
  {
    if EndedStatus(db, t, m).Some? && ValidDb(db) {
      assert RunOk(db.runs[Lower(m.content.streamRunId.value)]);
    }
  }

  /** Without a thread row nobody owns the thread, so none of its runs is ended and nothing is hidden. */
  lemma OrphanThreadHidesNothing(db: Database, t: Id, id: Id)
    requires t !in db.threads && id in db.messages && db.messages[id].threadId == t
    ensures Shown(db, t, id) <==> !db.messages[id].role.OtherRole?
    ensures EndedStatus(db, t, db.messages[id]) == None
  {
  }

  // ----- ordered, bounded queries -----

  /** A message's place in the (created_at, id) order. */
  datatype Key = Key(micros: int, id: Id)

  /** The id order is the column's collation: any strict total order. */
  type Collation = (Id, Id) -> bool

  predicate KeyLess(lt: Collation, a: Key, b: Key) {
    a.micros < b.micros || (a.micros == b.micros && lt(a.id, b.id))
  }

  /** ORDER BY created_at ASC, id ASC. */
  function OldestFirst(lt: Collation): (Key, Key) -> bool {
    (a: Key, b: Key) => KeyLess(lt, a, b)
  }

  /** ORDER BY created_at DESC, id DESC. */
  function NewestFirst(lt: Collation): (Key, Key) -> bool {
    (a: Key, b: Key) => KeyLess(lt, b, a)
  }

  lemma KeyOrdersAreTotal(lt: Collation)
    requires StrictTotal(lt)
    ensures StrictTotal(OldestFirst(lt)) && StrictTotal(NewestFirst(lt))
  {
    forall a, b, c ensures OrderLaws(OldestFirst(lt), a, b, c) && OrderLaws(NewestFirst(lt), a, b, c) {
      assert OrderLaws(lt, a.id, b.id, c.id) && OrderLaws(lt, c.id, b.id, a.id);
    }
  }

  function KeyOf(db: Database, id: Id): Key
    requires id in db.messages
  {
    Key(CreatedAt(db.messages[id]), id)
  }

  /** What a list reads: a thread as its owner, or a thread up to its share link's creation. */
  datatype Reader = Owner(user: Id) | Visitor(until: int)

  predicate Reads(db: Database, t: Id, who: Reader, id: Id) {
    && Shown(db, t, id)
    && match who
       case Owner(user) => Owns(db, t, user)
       case Visitor(until) => CreatedAt(db.messages[id]) <= until
  }

  /** The keys of the messages the reader's query selects. */
  function VisibleKeys(db: Database, t: Id, who: Reader): set<Key> {
    set id <- db.messages | Reads(db, t, who, id) :: KeyOf(db, id)
  }

  function OrderOf(who: Reader, lt: Collation): (Key, Key) -> bool {
    if who.Owner? then NewestFirst(lt) else OldestFirst(lt)
  }

  /** A row as the store returns it. */
  datatype Row = Row(
    id: Id, content: Content, role: Role, feedback: Option<string>, createdAt: Cursor.Time, endedStatus: Option<RunStatus>)

  function RowFor(db: Database, t: Id, who: Reader, k: Key): Row
    requires k.id in db.messages
  {
    var m := db.messages[k.id];
    var feedback :=
      if who.Owner? && FeedbackKey(k.id, t, who.user) in db.feedback
      then Some(db.feedback[FeedbackKey(k.id, t, who.user)])
      else None;
    Row(k.id, m.content, m.role, feedback, Cursor.FromUnixMicro(CreatedAt(m)), EndedStatus(db, t, m))
  }

  /** What the owner's list returns of a message is its one joined row, projected. */
  lemma OwnerRowsAreProjected(db: Database, t: Id, user: Id, j: Joined)
    requires OwnerRow(db, t, user, j)
    ensures Reads(db, t, Owner(user), j.id)
    ensures (j.run.Some? ==> j.run.value in db.runs) && (j.feedback.Some? ==> j.feedback.value in db.feedback)
    ensures var m := db.messages[j.id];
            RowFor(db, t, Owner(user), KeyOf(db, j.id)) ==
            Row(j.id, m.content, m.role,
                if j.feedback.Some? then Some(db.feedback[j.feedback.value]) else None,
                Cursor.FromUnixMicro(CreatedAt(m)), StatusColumn(db, m, j.run))
  {
    OwnerRowsAreTheShownMessages(db, t, user, j);
    EndedStatusIsTheRunsStatus(db, t, db.messages[j.id]);
  }

  lemma SharedRowsAreProjected(db: Database, t: Id, until: int, j: Joined)
    requires SharedRow(db, t, until, j)
    ensures Reads(db, t, Visitor(until), j.id)
    ensures j.run.Some? ==> j.run.value in db.runs
    ensures var m := db.messages[j.id];
            RowFor(db, t, Visitor(until), KeyOf(db, j.id)) ==
            Row(j.id, m.content, m.role, None, Cursor.FromUnixMicro(CreatedAt(m)), StatusColumn(db, m, j.run))
  {
    SharedRowsAreTheShownMessages(db, t, until, j);
    EndedStatusIsTheRunsStatus(db, t, db.messages[j.id]);
  }

  function RowsFor(db: Database, t: Id, who: Reader, ks: seq<Key>): (rows: seq<Row>)
    requires forall k <- ks :: k.id in db.messages
    ensures |rows| == |ks| && forall i :: 0 <= i < |ks| ==> rows[i] == RowFor(db, t, who, ks[i])
  {
    seq(|ks|, i requires 0 <= i < |ks| => RowFor(db, t, who, ks[i]))
  }

  function BoundaryOf(after: Option<Cursor.Position>): Option<Key> {
    if after.None? then None
    else Some(Key(Cursor.FloorMicros(after.value.createdAt), after.value.id))
  }

  /** The store's ListMessages (Owner) and ListSharedMessages (Visitor): LIMIT count + 1 fails when negative. */
  ghost function StoreRows(db: Database, t: Id, who: Reader, after: Option<Cursor.Position>, count: int, lt: Collation)
    : Option<seq<Row>>
    requires StrictTotal(lt)
  {
    KeyOrdersAreTotal(lt);
    if count + 1 < 0 then None
    else
      var ks := Query(VisibleKeys(db, t, who), BoundaryOf(after), count + 1, OrderOf(who, lt));
      QueriedAreStored(db, t, who, BoundaryOf(after), count + 1, lt);
      Some(RowsFor(db, t, who, ks))
  }

  lemma QueriedAreStored(db: Database, t: Id, who: Reader, after: Option<Key>, limit: nat, lt: Collation)
    requires StrictTotal(lt) && StrictTotal(OrderOf(who, lt))
    ensures forall k <- Query(VisibleKeys(db, t, who), after, limit, OrderOf(who, lt)) ::
              k in VisibleKeys(db, t, who) && k.id in db.messages && k == KeyOf(db, k.id)
  {
    var all := Sort(Beyond(VisibleKeys(db, t, who), after, OrderOf(who, lt)), OrderOf(who, lt));
    forall k <- Take(limit, all)
      ensures k in VisibleKeys(db, t, who) && k.id in db.messages && k == KeyOf(db, k.id)
    {
      assert k in all;
    }
  }

  // ----- what is listed, column by column -----

  /** The lists read exactly the messages that have a joined row. */
  lemma ReadsAreTheJoins(db: Database, t: Id, user: Id, until: int, id: Id)
    ensures Reads(db, t, Owner(user), id) <==> exists j :: OwnerRow(db, t, user, j) && j.id == id
    ensures Reads(db, t, Visitor(until), id) <==> exists j :: SharedRow(db, t, until, j) && j.id == id
  {
    if id in db.messages {
      var run := JoinedRun(db, t, db.messages[id]);
      var mine, theirs := Joined(id, JoinedFeedback(db, t, user, id), run), Joined(id, None, run);
      OwnerRowsAreTheShownMessages(db, t, user, mine);
      SharedRowsAreTheShownMessages(db, t, until, theirs);
    }
    forall j | OwnerRow(db, t, user, j) && j.id == id ensures Reads(db, t, Owner(user), id) {
      OwnerRowsAreProjected(db, t, user, j);
    }
    forall j | SharedRow(db, t, until, j) && j.id == id ensures Reads(db, t, Visitor(until), id) {
      SharedRowsAreProjected(db, t, until, j);
    }
  }

  /** r is the run of the thread's owner, not ended normally, that the message's content names. */
  predicate IsItsEndedRun(db: Database, t: Id, m: Message, r: RunId) {
    && t in db.threads
    && r in db.runs
    && db.runs[r].threadId == t && db.runs[r].userId == db.threads[t].resourceId
    && (db.runs[r].cleanup == Pending || db.runs[r].cleanup == CleanedUp || db.runs[r].cleanup == CleanupFailed)
    && m.content.streamRunId.Some? && Lower(m.content.streamRunId.value) == r
  }

  /** The time the row shows: createdAtZ, and createdAt only where that is null. */
  predicate IsItsTime(m: Message, us: int) {
    (m.createdAtZ == Some(us)) || (m.createdAtZ == None && m.createdAt == us)
  }

  /** What the tables say of a row of a reader's list, column by column. */
  ghost predicate TablesSay(db: Database, t: Id, who: Reader, row: Row) {
    && row.id in db.messages
    && var m := db.messages[row.id];
       && m.threadId == t
       && row.content == m.content
       && row.role == m.role
       && (m.role == User || (m.role == Assistant && !exists r :: IsItsEndedRun(db, t, m, r)))
       && (exists us :: IsItsTime(m, us) && row.createdAt == Cursor.FromUnixMicro(us) && (who.Visitor? ==> us <= who.until))
       && (forall r :: IsItsEndedRun(db, t, m, r) && m.role == User ==> row.endedStatus == Some(db.runs[r].status))
       && (m.role != User || !(exists r :: IsItsEndedRun(db, t, m, r)) ==> row.endedStatus == None)
       && match who
          case Visitor(_) => row.feedback == None
          case Owner(user) =>
            && t in db.threads && db.threads[t].resourceId == user && !db.threads[t].deleted
            && row.feedback == (if FeedbackKey(row.id, t, user) in db.feedback
                                then Some(db.feedback[FeedbackKey(row.id, t, user)]) else None)
  }

  lemma EndedRunIsNamed(db: Database, t: Id, m: Message)
    ensures NamesEndedRun(db, t, m) <==> exists r :: IsItsEndedRun(db, t, m, r)
    ensures NamesEndedRun(db, t, m) ==> IsItsEndedRun(db, t, m, Lower(m.content.streamRunId.value))
  {
    if NamesEndedRun(db, t, m) {
      assert IsItsEndedRun(db, t, m, Lower(m.content.streamRunId.value));
    }
  }

  /** A row a list returns is what the tables say, and what the tables say is a row the list reads. */
  lemma RowsAreWhatTheTablesSay(db: Database, t: Id, who: Reader, row: Row)
    ensures TablesSay(db, t, who, row) <==>
            Reads(db, t, who, row.id) && row == RowFor(db, t, who, KeyOf(db, row.id))
  {
    if row.id in db.messages {
      var m := db.messages[row.id];
      EndedRunIsNamed(db, t, m);
      assert IsItsTime(m, CreatedAt(m));
      assert forall us :: IsItsTime(m, us) ==> us == CreatedAt(m);
    }
  }
}
