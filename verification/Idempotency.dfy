/** The idempotency middleware and its Postgres store, idempotency/idempotency.go.

    `PostgresStore` is the table with its three statements.  `Sys` runs any number
    of requests through the middleware at once, each of its database statements
    one atomic step that may also fail.  Begin is a transaction of two statements:
    between its SELECT and its INSERT other requests move, and the uniqueness of
    (scope, idempotency_key) decides between two that both found no row.
 */
module Idempotency {
  import opened CaptureWriter
  import opened Options

  datatype Slot = Slot(scope: string, key: string)

  datatype Row = Row(requestHash: string, createdAt: int, expiresAt: int, response: Option<Stored>)

  type Table = map<Slot, Row>

  // ---------------------------------------------------------------------------
  // The statements

  function Swept(t: Table, now: int): Table {
    map k | k in t && t[k].expiresAt > now :: t[k]
  }

  datatype Found = Absent | Conflict | Pending | Replay(stored: Stored)

  function Select(t: Table, slot: Slot, hash: string): Found {
    if slot !in t then Absent
    else if t[slot].requestHash != hash then Conflict
    else match t[slot].response
      case None => Pending
      case Some(r) => Replay(r)
  }

  function Inserted(t: Table, slot: Slot, hash: string, ttl: int, now: int): Table {
    t[slot := Row(hash, now, now + ttl, None)]
  }

  // An UPDATE: whatever row holds the slot, if any.
  function Completed(t: Table, slot: Slot, r: Stored): Table {
    if slot in t then t[slot := t[slot].(response := Some(r))] else t
  }

  class PostgresStore {
    var rows: Table

    constructor ()
      ensures rows == map[]
    {
      rows := map[];
    }

    method Cleanup(now: int)
      modifies this
      ensures rows == Swept(old(rows), now)
      ensures forall k :: k in rows <==> k in old(rows) && old(rows)[k].expiresAt > now
      ensures forall k :: k in rows ==> rows[k] == old(rows)[k]
    {
      rows := map k | k in rows && rows[k].expiresAt > now :: rows[k];
    }

    // Begin with no one else in the table meanwhile; Absent means the row is now there.
    method Begin(slot: Slot, hash: string, ttl: int, now: int) returns (found: Found)
      modifies this
      ensures found == Select(old(rows), slot, hash)
      ensures rows == if found == Absent then Inserted(old(rows), slot, hash, ttl, now) else old(rows)
    {
      if slot !in rows {
        rows := rows[slot := Row(hash, now, now + ttl, None)];
        return Absent;
      }
      var row := rows[slot];
      if row.requestHash != hash {
        return Conflict;
      }
      if row.response.None? {
        return Pending;
      }
      return Replay(row.response.value);
    }

    method Complete(slot: Slot, r: Stored)
      modifies this
      ensures rows == Completed(old(rows), slot, r)
    {
      if slot in rows {
        rows := rows[slot := rows[slot].(response := Some(r))];
      }
    }
  }

  // ---------------------------------------------------------------------------
  // The middleware, many requests at once

  datatype Config = Config(ttl: int, cleanupInterval: int) {
    predicate Valid() { ttl > 0 && cleanupInterval > 0 }

    // 24 hours, 5 minutes.
    function WithDefaults(): (c: Config)
      ensures c.Valid()
      ensures c.ttl == ttl || (ttl <= 0 && c.ttl == 86_400_000_000_000)
      ensures c.cleanupInterval == cleanupInterval || (cleanupInterval <= 0 && c.cleanupInterval == 300_000_000_000)
    {
      Config(if ttl <= 0 then 86_400_000_000_000 else ttl,
             if cleanupInterval <= 0 then 300_000_000_000 else cleanupInterval)
    }
  }

  datatype Reply =
    | OwnResponse(trace: seq<Event>)            // the handler's, as it wrote it
    | ConflictReply
    | InProgressReply
    // and who inserted the row it came from, and who stored it there
    | ReplayReply(stored: Stored, from: nat, via: nat)
    | ErrorReply

  datatype Status =
    | Cleaning
    | Selecting
    | Inserting
    | Running
    | Completing(trace: seq<Event>)
    | Answered(reply: Reply)

  datatype Request = Request(slot: Slot, hash: string, now: int, status: Status)

  // A handler started.
  datatype Start = Start(id: nat, slot: Slot, expiresAt: int, at: int)

  datatype Sys = Sys(
    clock: int,
    lastCleanup: Option<int>,
    rows: Table,
    owner: map<Slot, nat>,      // who inserted the row of a slot
    filler: map<Slot, nat>,     // who last stored a response for it
    requests: map<nat, Request>,
    starts: seq<Start>)

  // How an INSERT ends when no row is in the way.
  datatype Commit = Committed | RolledBack | AppliedButReported

  datatype Act =
    | Tick(to: int)
    | Arrive(id: nat, slot: Slot, hash: string)
    | CleanUp(id: nat, ok: bool)
    | Query(id: nat, ok: bool)
    | Insert(id: nat, commit: Commit)
    | Return(id: nat, trace: seq<Event>)
    | Store(id: nat, ok: bool)

  function Init(): Sys { Sys(0, None, map[], map[], map[], map[], []) }

  predicate At(s: Sys, id: nat, st: Status) { id in s.requests && s.requests[id].status == st }

  predicate Legal(s: Sys, a: Act) {
    match a
    case Tick(t) => t >= s.clock
    case Arrive(id, _, _) => id !in s.requests
    case CleanUp(id, _) => At(s, id, Cleaning)
    case Query(id, _) => At(s, id, Selecting)
    case Insert(id, _) => At(s, id, Inserting)
    case Return(id, _) => At(s, id, Running)
    case Store(id, _) => id in s.requests && s.requests[id].status.Completing?
  }

  function Move(s: Sys, id: nat, st: Status): Sys
    requires id in s.requests
  {
    s.(requests := s.requests[id := s.requests[id].(status := st)])
  }

  function Arrived(cfg: Config, s: Sys, id: nat, slot: Slot, hash: string): Sys {
    var clean := s.lastCleanup.None? || s.clock - s.lastCleanup.value >= cfg.cleanupInterval;
    s.(requests := s.requests[id := Request(slot, hash, s.clock, if clean then Cleaning else Selecting)],
       lastCleanup := if clean then Some(s.clock) else s.lastCleanup)
  }

  function Queried(s: Sys, id: nat): Status
    requires id in s.requests
  {
    var r := s.requests[id];
    match Select(s.rows, r.slot, r.hash)
    case Absent => Inserting
    case Conflict => Answered(ConflictReply)
    case Pending => Answered(InProgressReply)
    case Replay(x) =>
      if r.slot in s.owner && r.slot in s.filler then Answered(ReplayReply(x, s.owner[r.slot], s.filler[r.slot]))
      else Answered(ErrorReply)   // no row is without them
  }

  function InsertStep(cfg: Config, s: Sys, id: nat, commit: Commit): Sys
    requires id in s.requests
  {
    var r := s.requests[id];
    if r.slot in s.rows || commit == RolledBack then Move(s, id, Answered(ErrorReply))
    else
      var t := Move(s, id, if commit == Committed then Running else Answered(ErrorReply));
      t.(rows := Inserted(s.rows, r.slot, r.hash, cfg.ttl, r.now),
         owner := s.owner[r.slot := id],
         starts := if commit == Committed
                   then s.starts + [Start(id, r.slot, r.now + cfg.ttl, s.clock)] else s.starts)
  }

  function Step(cfg: Config, s: Sys, a: Act): Sys
    requires Legal(s, a)
  {
    match a
    case Tick(t) => s.(clock := t)
    case Arrive(id, slot, hash) => Arrived(cfg, s, id, slot, hash)
    case CleanUp(id, ok) =>
      Move(s, id, Selecting).(rows := if ok then Swept(s.rows, s.requests[id].now) else s.rows)
    case Query(id, ok) => Move(s, id, if ok then Queried(s, id) else Answered(ErrorReply))
    case Insert(id, commit) => InsertStep(cfg, s, id, commit)
    case Return(id, trace) => Move(s, id, Completing(trace))
    case Store(id, ok) =>
      var r := s.requests[id];
      Move(s, id, Answered(OwnResponse(r.status.trace))).(
        rows := if ok then Completed(s.rows, r.slot, Recorded(r.status.trace)) else s.rows,
        filler := if ok then s.filler[r.slot := id] else s.filler)
  }

  ghost predicate LegalRun(cfg: Config, acts: seq<Act>)
    decreases |acts|, 0
  {
    acts == [] ||
    (LegalRun(cfg, acts[..|acts| - 1]) && Legal(Run(cfg, acts[..|acts| - 1]), acts[|acts| - 1]))
  }

  ghost function Run(cfg: Config, acts: seq<Act>): Sys
    requires LegalRun(cfg, acts)
    decreases |acts|, 1
  {
    if acts == [] then Init() else Step(cfg, Run(cfg, acts[..|acts| - 1]), acts[|acts| - 1])
  }

  // ---------------------------------------------------------------------------
  // At most one execution

  predicate Executes(st: Status) {
    st.Running? || st.Completing? || (st.Answered? && st.reply.OwnResponse?)
  }

  // The row a start inserted is still there.
  predicate Holding(s: Sys, st: Start) {
    && st.slot in s.rows && st.slot in s.owner
    && s.owner[st.slot] == st.id && s.rows[st.slot].expiresAt == st.expiresAt
  }

  ghost predicate RequestsOk(s: Sys) {
    forall id :: id in s.requests ==>
      && s.requests[id].now <= s.clock
      && (Executes(s.requests[id].status) ==> exists i :: 0 <= i < |s.starts| && s.starts[i].id == id)
  }

  ghost predicate StartsOk(s: Sys) {
    forall i :: 0 <= i < |s.starts| ==>
      && s.starts[i].at <= s.clock
      && s.starts[i].id in s.requests && Executes(s.requests[s.starts[i].id].status)
      && s.requests[s.starts[i].id].slot == s.starts[i].slot
      && (Holding(s, s.starts[i]) || s.starts[i].expiresAt <= s.clock)
  }

  ghost predicate Apart(s: Sys) {
    forall i, j :: 0 <= i < j < |s.starts| ==>
      && s.starts[i].id != s.starts[j].id
      && (s.starts[i].slot == s.starts[j].slot ==> s.starts[i].expiresAt <= s.starts[j].at)
  }

  ghost predicate RowsOk(s: Sys) {
    forall k :: k in s.rows ==>
      && k in s.owner && s.owner[k] in s.requests
      && s.requests[s.owner[k]].slot == k && s.requests[s.owner[k]].hash == s.rows[k].requestHash
      && !s.requests[s.owner[k]].status.Cleaning? && !s.requests[s.owner[k]].status.Selecting?
      && !s.requests[s.owner[k]].status.Inserting?
  }

  ghost predicate Inv(s: Sys) { RequestsOk(s) && StartsOk(s) && Apart(s) && RowsOk(s) }

  // A step that changes one request's status, within or outside execution, and no row.
  lemma MoveKeepsInv(s: Sys, id: nat, st: Status)
    requires Inv(s) && id in s.requests
    requires Executes(st) == Executes(s.requests[id].status)
    requires st.Cleaning? || st.Selecting? || st.Inserting? ==>
      s.requests[id].status.Cleaning? || s.requests[id].status.Selecting? || s.requests[id].status.Inserting?
    ensures Inv(Move(s, id, st))
  {
    var t := Move(s, id, st);
    forall x | x in t.requests && Executes(t.requests[x].status)
      ensures exists i :: 0 <= i < |t.starts| && t.starts[i].id == x
    {
      assert Executes(s.requests[x].status);
    }
    assert RowsOk(t);
    assert StartsOk(t);
  }

  lemma ArriveKeepsInv(cfg: Config, s: Sys, id: nat, slot: Slot, hash: string)
    requires Inv(s) && id !in s.requests
    ensures Inv(Arrived(cfg, s, id, slot, hash))
  {
  }

  lemma SweepKeepsInv(s: Sys, now: int)
    requires Inv(s) && now <= s.clock
    ensures Inv(s.(rows := Swept(s.rows, now)))
  {
  }

  lemma CompleteKeepsInv(s: Sys, slot: Slot, r: Stored, filler: map<Slot, nat>)
    requires Inv(s)
    ensures Inv(s.(rows := Completed(s.rows, slot, r), filler := filler))
  {
  }

  // An INSERT that goes through.
  predicate Placed(cfg: Config, s: Sys, id: nat, commit: Commit, t: Sys) {
    && At(s, id, Inserting) && s.requests[id].slot !in s.rows && commit != RolledBack
    && t == InsertStep(cfg, s, id, commit)
  }

  lemma PlacedRequests(cfg: Config, s: Sys, id: nat, commit: Commit, t: Sys)
    requires Inv(s) && Placed(cfg, s, id, commit, t)
    ensures RequestsOk(t)
  {
    forall x | x in t.requests && Executes(t.requests[x].status)
      ensures exists i :: 0 <= i < |t.starts| && t.starts[i].id == x
    {
      if x == id {
        assert t.starts[|s.starts|].id == id;
      } else {
        var i :| 0 <= i < |s.starts| && s.starts[i].id == x;
        assert t.starts[i].id == x;
      }
    }
  }

  lemma PlacedStarts(cfg: Config, s: Sys, id: nat, commit: Commit, t: Sys)
    requires Inv(s) && Placed(cfg, s, id, commit, t)
    ensures StartsOk(t)
    ensures forall i :: 0 <= i < |s.starts| ==> s.starts[i].id != id
    ensures forall i :: 0 <= i < |s.starts| && s.starts[i].slot == s.requests[id].slot ==> s.starts[i].expiresAt <= s.clock
  {
    forall i | 0 <= i < |s.starts|
      ensures s.starts[i].id != id
      ensures s.starts[i].slot == s.requests[id].slot ==> s.starts[i].expiresAt <= s.clock
      ensures Holding(s, s.starts[i]) ==> Holding(t, s.starts[i])
    {
    }
  }

  lemma PlacedRows(cfg: Config, s: Sys, id: nat, commit: Commit, t: Sys)
    requires Inv(s) && Placed(cfg, s, id, commit, t)
    ensures RowsOk(t)
  {
    forall k | k in s.rows ensures k != s.requests[id].slot && s.owner[k] != id { }
  }

  lemma PlacedApart(cfg: Config, s: Sys, id: nat, commit: Commit, t: Sys)
    requires Apart(s) && Placed(cfg, s, id, commit, t)
    requires forall i :: 0 <= i < |s.starts| ==> s.starts[i].id != id
    requires forall i :: 0 <= i < |s.starts| && s.starts[i].slot == s.requests[id].slot ==> s.starts[i].expiresAt <= s.clock
    ensures Apart(t)
  {
  }

  lemma InsertKeepsInv(cfg: Config, s: Sys, id: nat, commit: Commit)
    requires Inv(s) && At(s, id, Inserting)
    ensures Inv(InsertStep(cfg, s, id, commit))
  {
    var t := InsertStep(cfg, s, id, commit);
    if Placed(cfg, s, id, commit, t) {
      PlacedRequests(cfg, s, id, commit, t);
      PlacedStarts(cfg, s, id, commit, t);
      PlacedRows(cfg, s, id, commit, t);
      PlacedApart(cfg, s, id, commit, t);
    } else {
      MoveKeepsInv(s, id, Answered(ErrorReply));
    }
  }

  lemma StepKeepsInv(cfg: Config, s: Sys, a: Act)
    requires Inv(s) && Legal(s, a)
    ensures Inv(Step(cfg, s, a))
  {
    match a
    case Tick(t) =>
    case Arrive(id, slot, hash) => ArriveKeepsInv(cfg, s, id, slot, hash);
    case CleanUp(id, ok) =>
      MoveKeepsInv(s, id, Selecting);
      SweepKeepsInv(Move(s, id, Selecting), s.requests[id].now);
    case Query(id, ok) => MoveKeepsInv(s, id, if ok then Queried(s, id) else Answered(ErrorReply));
    case Insert(id, commit) => InsertKeepsInv(cfg, s, id, commit);
    case Return(id, trace) => MoveKeepsInv(s, id, Completing(trace));
    case Store(id, ok) =>
      var trace := s.requests[id].status.trace;
      MoveKeepsInv(s, id, Answered(OwnResponse(trace)));
      CompleteKeepsInv(Move(s, id, Answered(OwnResponse(trace))), s.requests[id].slot, Recorded(trace), Step(cfg, s, a).filler);
  }

  lemma {:induction false} RunKeepsInv(cfg: Config, acts: seq<Act>)
    requires LegalRun(cfg, acts)
    ensures Inv(Run(cfg, acts))
  {
    if acts != [] {
      RunKeepsInv(cfg, acts[..|acts| - 1]);
      StepKeepsInv(cfg, Run(cfg, acts[..|acts| - 1]), acts[|acts| - 1]);
    }
  }

  // Of one store whose requests read one clock that does not go back: whatever
  // the interleaving and whatever fails, two handlers that start for one
  // scope and key are different requests, and the second starts no earlier than
  // the first one's row expires; and only requests whose handler started get
  // anything but a conflict, in-progress, a replay or an error.
  lemma AtMostOneExecution(cfg: Config, acts: seq<Act>)
    requires LegalRun(cfg, acts)
    ensures var s := Run(cfg, acts);
      forall i, j :: 0 <= i < j < |s.starts| && s.starts[i].slot == s.starts[j].slot ==>
        s.starts[i].id != s.starts[j].id && s.starts[i].expiresAt <= s.starts[j].at
    ensures var s := Run(cfg, acts);
      forall id :: id in s.requests && s.requests[id].status.Answered? ==>
        (s.requests[id].status.reply.OwnResponse? <==> exists i :: 0 <= i < |s.starts| && s.starts[i].id == id)
  {
    RunKeepsInv(cfg, acts);
  }

  // ---------------------------------------------------------------------------
  // Replay fidelity

  // x is what request id's own execution recorded.
  predicate RecordedBy(s: Sys, id: nat, x: Stored) {
    && id in s.requests && s.requests[id].status.Answered? && s.requests[id].status.reply.OwnResponse?
    && x == Recorded(s.requests[id].status.reply.trace)
  }

  // Every stored response is the recorded one of a request for that slot.
  ghost predicate RowsFaithful(s: Sys) {
    forall k :: k in s.rows && s.rows[k].response.Some? ==>
      k in s.filler && RecordedBy(s, s.filler[k], s.rows[k].response.value) && s.requests[s.filler[k]].slot == k
  }

  // A replay to request id: from inserted the row, for the same request; via stored the response.
  predicate ReplaySource(s: Sys, id: nat, x: Stored, from: nat, via: nat) {
    && id in s.requests && RecordedBy(s, via, x) && from in s.requests
    && s.requests[via].slot == s.requests[from].slot == s.requests[id].slot
    && s.requests[from].hash == s.requests[id].hash
  }

  ghost predicate RepliesFaithful(s: Sys) {
    forall id :: id in s.requests && s.requests[id].status.Answered? && s.requests[id].status.reply.ReplayReply? ==>
      var reply := s.requests[id].status.reply; ReplaySource(s, id, reply.stored, reply.from, reply.via)
  }

  // Responses, once given, stay what they were.
  ghost predicate Persists(s: Sys, t: Sys) {
    && (forall x, v :: RecordedBy(s, x, v) ==> RecordedBy(t, x, v) && t.requests[x] == s.requests[x])
    && (forall x, v, from, via :: ReplaySource(s, x, v, from, via) ==> ReplaySource(t, x, v, from, via))
  }

  lemma RequestsPersist(s: Sys, t: Sys)
    requires t.requests == s.requests
    ensures Persists(s, t)
  {
    forall x, v | RecordedBy(s, x, v) ensures RecordedBy(t, x, v) { }
    forall x, v, from, via | ReplaySource(s, x, v, from, via) ensures ReplaySource(t, x, v, from, via) { }
  }

  lemma MovePersists(s: Sys, id: nat, st: Status)
    requires id in s.requests && !s.requests[id].status.Answered?
    ensures Persists(s, Move(s, id, st))
  {
    var t := Move(s, id, st);
    forall x, v | RecordedBy(s, x, v) ensures RecordedBy(t, x, v) { }
    forall x, v, from, via | ReplaySource(s, x, v, from, via) ensures ReplaySource(t, x, v, from, via) { }
  }

  lemma MoveKeepsFaithful(s: Sys, id: nat, st: Status)
    requires Inv(s) && RowsFaithful(s) && RepliesFaithful(s) && id in s.requests && !s.requests[id].status.Answered?
    requires st.Answered? && st.reply.ReplayReply? ==> ReplaySource(s, id, st.reply.stored, st.reply.from, st.reply.via)
    ensures RowsFaithful(Move(s, id, st)) && RepliesFaithful(Move(s, id, st))
  {
    MovePersists(s, id, st);
  }

  // The requests stay; each row with a response is an old one, or filled as it should be.
  lemma RowsChangeFaithful(s: Sys, t: Sys)
    requires RowsFaithful(s) && RepliesFaithful(s) && t.requests == s.requests
    requires forall k :: k in t.rows && t.rows[k].response.Some? ==>
      || (k in s.rows && t.rows[k] == s.rows[k] && k in s.filler && k in t.filler && t.filler[k] == s.filler[k])
      || (k in t.filler && RecordedBy(s, t.filler[k], t.rows[k].response.value) && s.requests[t.filler[k]].slot == k)
    ensures RowsFaithful(t) && RepliesFaithful(t)
  {
    RequestsPersist(s, t);
  }

  lemma StoreKeepsFaithful(cfg: Config, s: Sys, id: nat, ok: bool)
    requires Inv(s) && RowsFaithful(s) && RepliesFaithful(s) && Legal(s, Store(id, ok))
    ensures RowsFaithful(Step(cfg, s, Store(id, ok))) && RepliesFaithful(Step(cfg, s, Store(id, ok)))
  {
    var st := Answered(OwnResponse(s.requests[id].status.trace));
    MoveKeepsFaithful(s, id, st);
    RowsChangeFaithful(Move(s, id, st), Step(cfg, s, Store(id, ok)));
  }

  lemma InsertKeepsFaithful(cfg: Config, s: Sys, id: nat, commit: Commit)
    requires Inv(s) && RowsFaithful(s) && RepliesFaithful(s) && At(s, id, Inserting)
    ensures RowsFaithful(InsertStep(cfg, s, id, commit)) && RepliesFaithful(InsertStep(cfg, s, id, commit))
  {
    var t := InsertStep(cfg, s, id, commit);
    MoveKeepsFaithful(s, id, t.requests[id].status);
    RowsChangeFaithful(Move(s, id, t.requests[id].status), t);
  }

  lemma ArriveKeepsFaithful(cfg: Config, s: Sys, id: nat, slot: Slot, hash: string)
    requires RowsFaithful(s) && RepliesFaithful(s) && id !in s.requests
    ensures RowsFaithful(Arrived(cfg, s, id, slot, hash)) && RepliesFaithful(Arrived(cfg, s, id, slot, hash))
  {
    var t := Arrived(cfg, s, id, slot, hash);
    forall x, v | RecordedBy(s, x, v) ensures RecordedBy(t, x, v) { }
    forall x, v, from, via | ReplaySource(s, x, v, from, via) ensures ReplaySource(t, x, v, from, via) { }
  }

  lemma QueryKeepsFaithful(s: Sys, id: nat)
    requires Inv(s) && RowsFaithful(s) && RepliesFaithful(s) && At(s, id, Selecting)
    ensures RowsFaithful(Move(s, id, Queried(s, id))) && RepliesFaithful(Move(s, id, Queried(s, id)))
  {
    MoveKeepsFaithful(s, id, Queried(s, id));
  }

  lemma StepKeepsFaithful(cfg: Config, s: Sys, a: Act)
    requires Inv(s) && RowsFaithful(s) && RepliesFaithful(s) && Legal(s, a)
    ensures RowsFaithful(Step(cfg, s, a)) && RepliesFaithful(Step(cfg, s, a))
  {
    match a
    case Tick(t) => RowsChangeFaithful(s, s.(clock := t));
    case Arrive(id, slot, hash) => ArriveKeepsFaithful(cfg, s, id, slot, hash);
    case CleanUp(id, ok) =>
      MoveKeepsFaithful(s, id, Selecting);
      RowsChangeFaithful(Move(s, id, Selecting), Step(cfg, s, a));
    case Query(id, ok) =>
      if ok { QueryKeepsFaithful(s, id); } else { MoveKeepsFaithful(s, id, Answered(ErrorReply)); }
    case Insert(id, commit) => InsertKeepsFaithful(cfg, s, id, commit);
    case Return(id, trace) => MoveKeepsFaithful(s, id, Completing(trace));
    case Store(id, ok) => StoreKeepsFaithful(cfg, s, id, ok);
  }

  lemma {:induction false} RunKeepsFaithful(cfg: Config, acts: seq<Act>)
    requires LegalRun(cfg, acts)
    ensures RowsFaithful(Run(cfg, acts)) && RepliesFaithful(Run(cfg, acts))
  {
    if acts != [] {
      var n := |acts| - 1;
      RunKeepsInv(cfg, acts[..n]);
      RunKeepsFaithful(cfg, acts[..n]);
      StepKeepsFaithful(cfg, Run(cfg, acts[..n]), acts[n]);
    }
  }

  predicate IsReplay(s: Sys, id: nat) {
    id in s.requests && s.requests[id].status.Answered? && s.requests[id].status.reply.ReplayReply?
  }

  // In every run: a replay carries exactly what one execution for that scope and
  // key recorded, and its client gets the response that execution's client got.
  lemma ReplayRepeatsAnExecution(cfg: Config, acts: seq<Act>, id: nat)
    requires LegalRun(cfg, acts) && IsReplay(Run(cfg, acts), id)
    ensures var s := Run(cfg, acts);
      var reply := s.requests[id].status.reply;
      && ReplaySource(s, id, reply.stored, reply.from, reply.via)
      && Repeats(reply.stored, s.requests[reply.via].status.reply.trace)
  {
    RunKeepsFaithful(cfg, acts);
    var s := Run(cfg, acts);
    var reply := s.requests[id].status.reply;
    assert ReplaySource(s, id, reply.stored, reply.from, reply.via);
    ReplayFaithful(s.requests[reply.via].status.reply.trace);
  }

  // --- And that execution is the row's own

  // A response is stored at most d after its request arrived.
  predicate Within(s: Sys, a: Act, d: int)
    requires Legal(s, a)
  {
    a.Store? && a.ok ==> s.clock - s.requests[a.id].now <= d
  }

  ghost predicate WithinRun(cfg: Config, acts: seq<Act>, d: int)
    requires LegalRun(cfg, acts)
    decreases |acts|
  {
    acts == [] ||
    (WithinRun(cfg, acts[..|acts| - 1], d) && Within(Run(cfg, acts[..|acts| - 1]), acts[|acts| - 1], d))
  }

  // A row lives for ttl from the arrival of the request that inserted it.
  ghost predicate Expiries(cfg: Config, s: Sys) {
    forall i :: 0 <= i < |s.starts| ==>
      s.starts[i].id in s.requests && s.starts[i].expiresAt == s.requests[s.starts[i].id].now + cfg.ttl
  }

  // A request keeps its reading.
  lemma ReadingsStay(cfg: Config, s: Sys, a: Act)
    requires Legal(s, a)
    ensures var t := Step(cfg, s, a);
      forall x :: x in s.requests ==> x in t.requests && t.requests[x].now == s.requests[x].now
  {
  }

  lemma StepKeepsExpiries(cfg: Config, s: Sys, a: Act)
    requires Expiries(cfg, s) && Legal(s, a)
    ensures Expiries(cfg, Step(cfg, s, a))
  {
    var t := Step(cfg, s, a);
    ReadingsStay(cfg, s, a);
    assert forall i :: 0 <= i < |t.starts| && i != |s.starts| ==> t.starts[i] == s.starts[i];
  }

  lemma {:induction false} RunKeepsExpiries(cfg: Config, acts: seq<Act>)
    requires LegalRun(cfg, acts)
    ensures Expiries(cfg, Run(cfg, acts))
  {
    if acts != [] {
      RunKeepsExpiries(cfg, acts[..|acts| - 1]);
      StepKeepsExpiries(cfg, Run(cfg, acts[..|acts| - 1]), acts[|acts| - 1]);
    }
  }

  // A handler that finishes finds its own row, or none.
  predicate FindsOwn(s: Sys, a: Act)
    requires Legal(s, a)
  {
    a.Store? && a.ok && s.requests[a.id].slot in s.rows ==>
      s.requests[a.id].slot in s.owner && s.owner[s.requests[a.id].slot] == a.id
  }

  lemma WithinFindsOwn(cfg: Config, s: Sys, a: Act, d: int)
    requires Inv(s) && Expiries(cfg, s) && Legal(s, a) && Within(s, a, d) && d < cfg.ttl
    ensures FindsOwn(s, a)
  {
    if a.Store? && a.ok {
      assert Executes(s.requests[a.id].status);
      var i :| 0 <= i < |s.starts| && s.starts[i].id == a.id;
      assert Holding(s, s.starts[i]);
    }
  }

  ghost predicate RowsOwnFilled(s: Sys) {
    forall k :: k in s.rows && s.rows[k].response.Some? ==> k in s.filler && k in s.owner && s.filler[k] == s.owner[k]
  }

  ghost predicate RepliesOwnFilled(s: Sys) {
    forall id :: IsReplay(s, id) ==> s.requests[id].status.reply.via == s.requests[id].status.reply.from
  }

  ghost predicate OwnFilled(s: Sys) { RowsOwnFilled(s) && RepliesOwnFilled(s) }

  lemma StepKeepsRowsOwnFilled(cfg: Config, s: Sys, a: Act)
    requires RowsOwnFilled(s) && Legal(s, a) && FindsOwn(s, a)
    ensures RowsOwnFilled(Step(cfg, s, a))
  {
  }

  lemma StepKeepsRepliesOwnFilled(cfg: Config, s: Sys, a: Act, id: nat)
    requires OwnFilled(s) && Legal(s, a) && IsReplay(Step(cfg, s, a), id)
    ensures var reply := Step(cfg, s, a).requests[id].status.reply; reply.via == reply.from
  {
    if a == Query(id, true) {
      assert Select(s.rows, s.requests[id].slot, s.requests[id].hash).Replay?;
    } else {
      assert IsReplay(s, id) && Step(cfg, s, a).requests[id] == s.requests[id];
    }
  }

  lemma {:induction false} RunKeepsOwnFilled(cfg: Config, acts: seq<Act>, d: int)
    requires LegalRun(cfg, acts) && WithinRun(cfg, acts, d) && d < cfg.ttl
    ensures OwnFilled(Run(cfg, acts))
  {
    if acts != [] {
      var n := |acts| - 1;
      RunKeepsInv(cfg, acts[..n]);
      RunKeepsExpiries(cfg, acts[..n]);
      RunKeepsOwnFilled(cfg, acts[..n], d);
      WithinFindsOwn(cfg, Run(cfg, acts[..n]), acts[n], d);
      StepKeepsRowsOwnFilled(cfg, Run(cfg, acts[..n]), acts[n]);
      forall id | IsReplay(Run(cfg, acts), id)
        ensures Run(cfg, acts).requests[id].status.reply.via == Run(cfg, acts).requests[id].status.reply.from
      {
        StepKeepsRepliesOwnFilled(cfg, Run(cfg, acts[..n]), acts[n], id);
      }
    }
  }

  // If responses are stored before their rows expire, every replay repeats the
  // one execution of the request that inserted the row, with the same scope, key
  // and hash.
  lemma ReplayFidelity(cfg: Config, acts: seq<Act>, d: int, id: nat)
    requires LegalRun(cfg, acts) && WithinRun(cfg, acts, d) && d < cfg.ttl && IsReplay(Run(cfg, acts), id)
    ensures var s := Run(cfg, acts);
      var reply := s.requests[id].status.reply;
      && reply.via == reply.from && RecordedBy(s, reply.from, reply.stored)
      && s.requests[reply.from].slot == s.requests[id].slot && s.requests[reply.from].hash == s.requests[id].hash
      && Repeats(reply.stored, s.requests[reply.from].status.reply.trace)
  {
    ReplayRepeatsAnExecution(cfg, acts, id);
    RunKeepsOwnFilled(cfg, acts, d);
  }

  // Request id, asking for slot k, is answered st by the execution of own: a
  // conflict if it asks something else, in progress until the response is
  // stored, and exactly that response after.
  predicate AnsweredBy(s: Sys, own: nat, k: Slot, id: nat, st: Status)
    requires id in s.requests
  {
    && own in s.requests && k in s.rows
    && (s.requests[id].hash != s.requests[own].hash ==> st == Answered(ConflictReply))
    && (s.requests[id].hash == s.requests[own].hash ==>
          if s.rows[k].response.None? then st == Answered(InProgressReply)
          else RecordedBy(s, own, s.rows[k].response.value)
               && st == Answered(ReplayReply(s.rows[k].response.value, own, own)))
    && (!s.requests[own].status.Answered? ==> s.rows[k].response.None?)
  }

  lemma LiveRowState(s: Sys, i: nat, id: nat)
    requires Inv(s) && RowsFaithful(s) && RowsOwnFilled(s)
    requires i < |s.starts| && s.clock < s.starts[i].expiresAt
    requires id in s.requests && s.requests[id].slot == s.starts[i].slot
    ensures AnsweredBy(s, s.starts[i].id, s.starts[i].slot, id, Queried(s, id))
  {
    assert Holding(s, s.starts[i]);
  }

  // Then also, while a handler's row lives, every other request for its scope and
  // key is answered by that one execution.
  lemma LiveRowAnswers(cfg: Config, acts: seq<Act>, d: int, i: nat, id: nat)
    requires LegalRun(cfg, acts) && WithinRun(cfg, acts, d) && d < cfg.ttl
    requires var s := Run(cfg, acts);
      && i < |s.starts| && s.clock < s.starts[i].expiresAt
      && At(s, id, Selecting) && s.requests[id].slot == s.starts[i].slot
    ensures var s := Run(cfg, acts);
      AnsweredBy(s, s.starts[i].id, s.starts[i].slot, id, Step(cfg, s, Query(id, true)).requests[id].status)
  {
    RunKeepsInv(cfg, acts);
    RunKeepsFaithful(cfg, acts);
    RunKeepsOwnFilled(cfg, acts, d);
    LiveRowState(Run(cfg, acts), i, id);
  }

  // --- What a handler that outlives its row does

  // In any state, a late handler's response lands in whatever row has taken the
  // place, and the next request that matches that row is answered with it.
  lemma LateCompletionIsReplayed(cfg: Config, s: Sys, late: nat, next: nat)
    requires Inv(s) && Legal(s, Store(late, true)) && Legal(s, Query(next, true)) && late != next
    requires s.requests[next].slot == s.requests[late].slot && s.requests[next].slot in s.rows
    requires s.requests[next].hash == s.rows[s.requests[next].slot].requestHash
    ensures var s1 := Step(cfg, s, Store(late, true));
      && Legal(s1, Query(next, true))
      && Step(cfg, s1, Query(next, true)).requests[next].status
         == Answered(ReplayReply(Recorded(s.requests[late].status.trace), s.owner[s.requests[late].slot], late))
  {
  }

  // acts leads to s, with every response stored within d.
  ghost predicate Leads(cfg: Config, d: int, acts: seq<Act>, s: Sys) {
    LegalRun(cfg, acts) && WithinRun(cfg, acts, d) && Run(cfg, acts) == s
  }

  lemma Extend(cfg: Config, d: int, acts: seq<Act>, s: Sys, a: Act) returns (more: seq<Act>)
    requires Leads(cfg, d, acts, s) && Legal(s, a) && Within(s, a, d)
    ensures Leads(cfg, d, more, Step(cfg, s, a))
  {
    more := acts + [a];
    assert more[..|acts|] == acts;
  }

  // A request that sweeps, finds no row and starts its handler.
  ghost function BegunState(cfg: Config, s: Sys, id: nat, k: Slot, h: string): Sys {
    Sys(s.clock, Some(s.clock), Inserted(Swept(s.rows, s.clock), k, h, cfg.ttl, s.clock), s.owner[k := id], s.filler,
        s.requests[id := Request(k, h, s.clock, Running)], s.starts + [Start(id, k, s.clock + cfg.ttl, s.clock)])
  }

  predicate CanBegin(cfg: Config, s: Sys, id: nat, k: Slot) {
    && id !in s.requests && k !in Swept(s.rows, s.clock)
    && (s.lastCleanup.None? || s.clock - s.lastCleanup.value >= cfg.cleanupInterval)
  }

  lemma SweepSteps(cfg: Config, s: Sys, id: nat, k: Slot, h: string)
    requires CanBegin(cfg, s, id, k)
    ensures Legal(s, Arrive(id, k, h))
    ensures var s1 := Step(cfg, s, Arrive(id, k, h));
      && Legal(s1, CleanUp(id, true))
      && Step(cfg, s1, CleanUp(id, true))
         == s.(rows := Swept(s.rows, s.clock), lastCleanup := Some(s.clock),
               requests := s.requests[id := Request(k, h, s.clock, Selecting)])
  {
    var s2 := Step(cfg, Step(cfg, s, Arrive(id, k, h)), CleanUp(id, true));
    assert s2.requests == s.requests[id := Request(k, h, s.clock, Selecting)];
  }

  lemma BegunSteps(cfg: Config, s: Sys, s2: Sys, id: nat, k: Slot, h: string)
    requires s2 == s.(rows := Swept(s.rows, s.clock), lastCleanup := Some(s.clock),
                      requests := s.requests[id := Request(k, h, s.clock, Selecting)])
    requires k !in s2.rows
    ensures Legal(s2, Query(id, true))
    ensures var s3 := Step(cfg, s2, Query(id, true));
      Legal(s3, Insert(id, Committed)) && Step(cfg, s3, Insert(id, Committed)) == BegunState(cfg, s, id, k, h)
  {
    var s3 := Step(cfg, s2, Query(id, true));
    assert s3.requests[id] == Request(k, h, s.clock, Inserting);
    var s4 := Step(cfg, s3, Insert(id, Committed));
    assert s4.requests == s.requests[id := Request(k, h, s.clock, Running)];
  }

  lemma BegunRun(cfg: Config, d: int, acts: seq<Act>, s: Sys, id: nat, k: Slot, h: string) returns (more: seq<Act>)
    requires Leads(cfg, d, acts, s) && CanBegin(cfg, s, id, k)
    ensures Leads(cfg, d, more, BegunState(cfg, s, id, k, h))
  {
    SweepSteps(cfg, s, id, k, h);
    var s1 := Step(cfg, s, Arrive(id, k, h));
    var s2 := Step(cfg, s1, CleanUp(id, true));
    BegunSteps(cfg, s, s2, id, k, h);
    more := Extend(cfg, d, acts, s, Arrive(id, k, h));
    more := Extend(cfg, d, more, s1, CleanUp(id, true));
    more := Extend(cfg, d, more, s2, Query(id, true));
    more := Extend(cfg, d, more, Step(cfg, s2, Query(id, true)), Insert(id, Committed));
  }

  // When the first request starts: late enough for a sweep to be due as its row
  // expires, the sweep before having been at time 0.
  function FirstAt(cfg: Config): int {
    if cfg.cleanupInterval > cfg.ttl then cfg.cleanupInterval - cfg.ttl else 0
  }

  // Request 3 sweeps at time 0.  Request 0 arrives, with no sweep due, and starts.
  ghost function Opened(cfg: Config, k: Slot, h: string): Sys {
    var t := FirstAt(cfg);
    Sys(t, Some(0), map[k := Row(h, t, t + cfg.ttl, None)], map[k := 0], map[],
        map[3 := Request(k, h, 0, Cleaning), 0 := Request(k, h, t, Running)], [Start(0, k, t + cfg.ttl, t)])
  }

  lemma OpeningSteps(cfg: Config, k: Slot, h: string)
    requires cfg.Valid()
    ensures var s1 := Step(cfg, Init(), Arrive(3, k, h));
      && Legal(s1, Tick(FirstAt(cfg)))
      && var s2 := Step(cfg, s1, Tick(FirstAt(cfg)));
         && Legal(s2, Arrive(0, k, h))
         && var s3 := Step(cfg, s2, Arrive(0, k, h));
            && Legal(s3, Query(0, true))
            && var s4 := Step(cfg, s3, Query(0, true));
               Legal(s4, Insert(0, Committed)) && Step(cfg, s4, Insert(0, Committed)) == Opened(cfg, k, h)
  {
    var s2 := Step(cfg, Step(cfg, Init(), Arrive(3, k, h)), Tick(FirstAt(cfg)));
    var s3 := Step(cfg, s2, Arrive(0, k, h));
    assert s3.requests[0] == Request(k, h, FirstAt(cfg), Selecting);
    var s5 := Step(cfg, Step(cfg, s3, Query(0, true)), Insert(0, Committed));
    assert s5.requests == Opened(cfg, k, h).requests;
  }

  lemma OpeningRun(cfg: Config, d: int, k: Slot, h: string) returns (acts: seq<Act>)
    requires cfg.Valid()
    ensures Leads(cfg, d, acts, Opened(cfg, k, h))
  {
    OpeningSteps(cfg, k, h);
    var s1 := Step(cfg, Init(), Arrive(3, k, h));
    var s2 := Step(cfg, s1, Tick(FirstAt(cfg)));
    var s3 := Step(cfg, s2, Arrive(0, k, h));
    acts := Extend(cfg, d, [], Init(), Arrive(3, k, h));
    acts := Extend(cfg, d, acts, s1, Tick(FirstAt(cfg)));
    acts := Extend(cfg, d, acts, s2, Arrive(0, k, h));
    acts := Extend(cfg, d, acts, s3, Query(0, true));
    acts := Extend(cfg, d, acts, Step(cfg, s3, Query(0, true)), Insert(0, Committed));
  }

  // From two running requests on one slot, the second owning the row.
  lemma OvertakenSteps(cfg: Config, s: Sys, k: Slot, h: string, trace: seq<Event>)
    requires 0 in s.requests && s.requests[0].slot == k && s.requests[0].status == Running
    requires 1 in s.requests && s.requests[1].status == Running && 2 !in s.requests
    requires k in s.rows && s.rows[k].requestHash == h && k in s.owner && s.owner[k] == 1
    requires s.lastCleanup == Some(s.clock) && cfg.cleanupInterval > 0
    ensures Legal(s, Return(0, trace))
    ensures var s1 := Step(cfg, s, Return(0, trace));
      && Legal(s1, Store(0, true)) && s1.clock == s.clock && s1.requests[0].now == s.requests[0].now
      && var s2 := Step(cfg, s1, Store(0, true));
         && Legal(s2, Arrive(2, k, h))
         && var s3 := Step(cfg, s2, Arrive(2, k, h));
            && Legal(s3, Query(2, true))
            && var s4 := Step(cfg, s3, Query(2, true));
               && 1 in s4.requests && s4.requests[1].status == Running
               && 2 in s4.requests && s4.requests[2].status == Answered(ReplayReply(Recorded(trace), 1, 0))
  {
    var s1 := Step(cfg, s, Return(0, trace));
    var s2 := Step(cfg, s1, Store(0, true));
    assert s2.rows[k].response == Some(Recorded(trace)) && s2.rows[k].requestHash == h;
    var s3 := Step(cfg, s2, Arrive(2, k, h));
    assert s3.requests[2] == Request(k, h, s.clock, Selecting);
  }

  lemma OvertakenEnd(cfg: Config, d: int, acts: seq<Act>, s: Sys, k: Slot, h: string, trace: seq<Event>)
    returns (more: seq<Act>, t: Sys)
    requires Leads(cfg, d, acts, s)
    requires 0 in s.requests && s.requests[0].slot == k && s.requests[0].status == Running
    requires s.clock - s.requests[0].now <= d
    requires 1 in s.requests && s.requests[1].status == Running && 2 !in s.requests
    requires k in s.rows && s.rows[k].requestHash == h && k in s.owner && s.owner[k] == 1
    requires s.lastCleanup == Some(s.clock) && cfg.cleanupInterval > 0
    ensures Leads(cfg, d, more, t)
    ensures 1 in t.requests && t.requests[1].status == Running
    ensures 2 in t.requests && t.requests[2].status == Answered(ReplayReply(Recorded(trace), 1, 0))
  {
    OvertakenSteps(cfg, s, k, h, trace);
    var s1 := Step(cfg, s, Return(0, trace));
    var s2 := Step(cfg, s1, Store(0, true));
    var s3 := Step(cfg, s2, Arrive(2, k, h));
    t := Step(cfg, s3, Query(2, true));
    more := Extend(cfg, d, acts, s, Return(0, trace));
    more := Extend(cfg, d, more, s1, Store(0, true));
    more := Extend(cfg, d, more, s2, Arrive(2, k, h));
    more := Extend(cfg, d, more, s3, Query(2, true));
  }

  // Whatever the configuration: request 0's row expires and is swept by request
  // 1, which starts in its place; request 0 stores its response, ttl after it
  // arrived, in request 1's row, and request 2 is answered with it while request
  // 1 is still running.
  lemma OvertakenReplay(cfg: Config, d: int, k: Slot, h: string, trace: seq<Event>) returns (acts: seq<Act>)
    requires cfg.Valid() && d >= cfg.ttl
    ensures LegalRun(cfg, acts) && WithinRun(cfg, acts, d)
    ensures var s := Run(cfg, acts);
      && 1 in s.requests && s.requests[1].status == Running
      && 2 in s.requests && s.requests[2].status == Answered(ReplayReply(Recorded(trace), 1, 0))
  {
    acts := OpeningRun(cfg, d, k, h);
    var s, t := Opened(cfg, k, h), FirstAt(cfg) + cfg.ttl;
    acts := Extend(cfg, d, acts, s, Tick(t));
    s := Step(cfg, s, Tick(t));
    assert k !in Swept(s.rows, t);
    acts := BegunRun(cfg, d, acts, s, 1, k, h);
    acts, s := OvertakenEnd(cfg, d, acts, BegunState(cfg, s, 1, k, h), k, h, trace);
  }

  // If every response of a run is stored within d, its replays are of the row's own execution.
  ghost predicate OwnReplays(cfg: Config, acts: seq<Act>, d: int) {
    LegalRun(cfg, acts) && WithinRun(cfg, acts, d) ==>
      forall id :: IsReplay(Run(cfg, acts), id) ==>
        Run(cfg, acts).requests[id].status.reply.via == Run(cfg, acts).requests[id].status.reply.from
  }

  // That is so of every run exactly when d is below the ttl, the requests reading
  // one clock that does not go back and sharing one time of the last cleanup.
  lemma FidelityIff(cfg: Config, d: int)
    requires cfg.Valid()
    ensures (forall acts :: OwnReplays(cfg, acts, d)) <==> d < cfg.ttl
  {
    if d < cfg.ttl {
      forall acts ensures OwnReplays(cfg, acts, d) {
        if LegalRun(cfg, acts) && WithinRun(cfg, acts, d) {
          RunKeepsOwnFilled(cfg, acts, d);
        }
      }
    } else {
      var acts := OvertakenReplay(cfg, d, Slot("", ""), "", []);
      assert IsReplay(Run(cfg, acts), 2);
      assert !OwnReplays(cfg, acts, d);
    }
  }

  // ---------------------------------------------------------------------------
  // Expiry

  // A sweep leaves exactly the rows whose expiry its request's reading has not
  // reached, whatever they hold, and leaves them as they are.
  lemma SweepIsExact(cfg: Config, s: Sys, id: nat)
    requires Legal(s, CleanUp(id, true))
    ensures var t := Step(cfg, s, CleanUp(id, true));
      && (forall k :: k in t.rows <==> k in s.rows && s.rows[k].expiresAt > s.requests[id].now)
      && (forall k :: k in t.rows ==> t.rows[k] == s.rows[k])
  {
  }

  // A statement that fails changes no row and starts no handler.  Failed sweeps and
  // stores are only logged; a failed lookup or insert answers with an error.
  lemma FailuresChangeNothing(cfg: Config, s: Sys, id: nat)
    ensures forall a :: a in {CleanUp(id, false), Query(id, false), Insert(id, RolledBack), Store(id, false)} && Legal(s, a) ==>
      Step(cfg, s, a).rows == s.rows && Step(cfg, s, a).starts == s.starts
    ensures Legal(s, CleanUp(id, false)) ==> Step(cfg, s, CleanUp(id, false)).requests[id].status == Selecting
    ensures Legal(s, Query(id, false)) ==> Step(cfg, s, Query(id, false)).requests[id].status == Answered(ErrorReply)
    ensures Legal(s, Insert(id, RolledBack)) ==>
      Step(cfg, s, Insert(id, RolledBack)).requests[id].status == Answered(ErrorReply)
    ensures Legal(s, Store(id, false)) ==>
      Step(cfg, s, Store(id, false)).requests[id].status == Answered(OwnResponse(s.requests[id].status.trace))
  {
  }

  // A key past its expiry runs again: with a sweep due, a request that no other
  // comes between starts its handler, whether the old row was ever filled or not.
  lemma ExpiredKeyRunsAgain(cfg: Config, d: int, acts: seq<Act>, s: Sys, id: nat, k: Slot, h: string)
    returns (more: seq<Act>, t: Sys)
    requires Leads(cfg, d, acts, s) && id !in s.requests
    requires k in s.rows ==> s.rows[k].expiresAt <= s.clock
    requires s.lastCleanup.None? || s.clock - s.lastCleanup.value >= cfg.cleanupInterval
    ensures Leads(cfg, d, more, t)
    ensures id in t.requests && t.requests[id].status == Running && t.starts == s.starts + [Start(id, k, s.clock + cfg.ttl, s.clock)]
    ensures k in t.rows && t.rows[k] == Row(h, s.clock, s.clock + cfg.ttl, None)
  {
    more := BegunRun(cfg, d, acts, s, id, k, h);
    t := BegunState(cfg, s, id, k, h);
  }

  // --- Replays to a request that has swept

  ghost predicate RowExpiries(cfg: Config, s: Sys) {
    forall k :: k in s.rows ==>
      k in s.owner && s.owner[k] in s.requests && s.rows[k].expiresAt == s.requests[s.owner[k]].now + cfg.ttl
  }

  lemma StepKeepsRowExpiries(cfg: Config, s: Sys, a: Act)
    requires RowExpiries(cfg, s) && Legal(s, a)
    ensures RowExpiries(cfg, Step(cfg, s, a))
  {
    ReadingsStay(cfg, s, a);
    if a.Insert? {
      InsertKeepsRowExpiries(cfg, s, a.id, a.commit);
    } else {
      RowsOnlyGo(cfg, s, a);
    }
  }

  // Rows come by inserts alone, and keep their expiry.
  lemma RowsOnlyGo(cfg: Config, s: Sys, a: Act)
    requires Legal(s, a) && !a.Insert?
    ensures var t := Step(cfg, s, a);
      t.owner == s.owner && forall k :: k in t.rows ==> k in s.rows && t.rows[k].expiresAt == s.rows[k].expiresAt
  {
  }

  lemma InsertKeepsRowExpiries(cfg: Config, s: Sys, id: nat, commit: Commit)
    requires RowExpiries(cfg, s) && Legal(s, Insert(id, commit))
    ensures RowExpiries(cfg, Step(cfg, s, Insert(id, commit)))
  {
  }

  lemma {:induction false} RunKeepsRowExpiries(cfg: Config, acts: seq<Act>)
    requires LegalRun(cfg, acts)
    ensures RowExpiries(cfg, Run(cfg, acts))
  {
    if acts != [] {
      RunKeepsRowExpiries(cfg, acts[..|acts| - 1]);
      StepKeepsRowExpiries(cfg, Run(cfg, acts[..|acts| - 1]), acts[|acts| - 1]);
    }
  }

  // A row is inserted at most d after its request arrived.
  predicate InsertWithin(s: Sys, a: Act, d: int)
    requires Legal(s, a)
  {
    a.Insert? ==> s.clock - s.requests[a.id].now <= d
  }

  ghost predicate InsertsWithin(cfg: Config, acts: seq<Act>, d: int)
    requires LegalRun(cfg, acts)
    decreases |acts|
  {
    acts == [] ||
    (InsertsWithin(cfg, acts[..|acts| - 1], d) && InsertWithin(Run(cfg, acts[..|acts| - 1]), acts[|acts| - 1], d))
  }

  // Request id has swept: what it finds, or was answered with, had not expired at its reading.
  ghost predicate FreshFor(cfg: Config, s: Sys, id: nat) {
    && id in s.requests && !s.requests[id].status.Cleaning?
    && (s.requests[id].status.Selecting? ==> forall k :: k in s.rows ==> s.rows[k].expiresAt > s.requests[id].now)
    && (IsReplay(s, id) ==>
          var from := s.requests[id].status.reply.from;
          from in s.requests && s.requests[from].now + cfg.ttl > s.requests[id].now)
  }

  lemma SweepMakesFresh(cfg: Config, s: Sys, id: nat)
    requires Legal(s, CleanUp(id, true))
    ensures FreshFor(cfg, Step(cfg, s, CleanUp(id, true)), id)
  {
  }

  lemma InsertKeepsFresh(cfg: Config, s: Sys, x: nat, commit: Commit, d: int, id: nat)
    requires Inv(s) && Legal(s, Insert(x, commit)) && InsertWithin(s, Insert(x, commit), d) && d < cfg.ttl
    requires FreshFor(cfg, s, id)
    ensures FreshFor(cfg, Step(cfg, s, Insert(x, commit)), id)
  {
    var t := Step(cfg, s, Insert(x, commit));
    assert s.requests[id].now <= s.clock;
    if id != x {
      assert t.requests[id] == s.requests[id];
    }
  }

  lemma QueryKeepsFresh(cfg: Config, s: Sys, x: nat, ok: bool, id: nat)
    requires RowExpiries(cfg, s) && Legal(s, Query(x, ok)) && FreshFor(cfg, s, id)
    ensures FreshFor(cfg, Step(cfg, s, Query(x, ok)), id)
  {
    var t := Step(cfg, s, Query(x, ok));
    assert t.rows == s.rows;
    if id != x {
      assert t.requests[id] == s.requests[id];
    }
  }

  lemma SameReplies(cfg: Config, s: Sys, a: Act, id: nat)
    requires Legal(s, a) && !a.Insert? && !a.Query? && id in s.requests && !s.requests[id].status.Cleaning?
    ensures var t := Step(cfg, s, a);
      && id in t.requests && !t.requests[id].status.Cleaning?
      && (t.requests[id].status.Selecting? ==> s.requests[id].status.Selecting?)
      && (IsReplay(t, id) ==> t.requests[id] == s.requests[id])
  {
  }

  lemma StepKeepsFresh(cfg: Config, s: Sys, a: Act, d: int, id: nat)
    requires Inv(s) && RowExpiries(cfg, s) && Legal(s, a) && InsertWithin(s, a, d) && d < cfg.ttl && FreshFor(cfg, s, id)
    ensures FreshFor(cfg, Step(cfg, s, a), id)
  {
    match a
    case Insert(x, commit) => InsertKeepsFresh(cfg, s, x, commit, d, id);
    case Query(x, ok) => QueryKeepsFresh(cfg, s, x, ok, id);
    case _ =>
      RowsOnlyGo(cfg, s, a);
      ReadingsStay(cfg, s, a);
      SameReplies(cfg, s, a, id);
  }

  lemma {:induction false} RunKeepsFresh(cfg: Config, acts: seq<Act>, d: int, id: nat)
    requires LegalRun(cfg, acts) && InsertsWithin(cfg, acts, d) && d < cfg.ttl && CleanUp(id, true) in acts
    ensures FreshFor(cfg, Run(cfg, acts), id)
  {
    var n := |acts| - 1;
    var h := acts[..n];
    RunKeepsInv(cfg, h);
    RunKeepsRowExpiries(cfg, h);
    if acts[n] == CleanUp(id, true) {
      SweepMakesFresh(cfg, Run(cfg, h), id);
    } else {
      assert acts == h + [acts[n]];
      RunKeepsFresh(cfg, h, d, id);
      StepKeepsFresh(cfg, Run(cfg, h), acts[n], d, id);
    }
  }

  // --- Unless rows are inserted late

  ghost predicate LeadsLate(cfg: Config, d: int, acts: seq<Act>, s: Sys) {
    LegalRun(cfg, acts) && InsertsWithin(cfg, acts, d) && Run(cfg, acts) == s
  }

  lemma ExtendLate(cfg: Config, d: int, acts: seq<Act>, s: Sys, a: Act) returns (more: seq<Act>)
    requires LeadsLate(cfg, d, acts, s) && Legal(s, a) && InsertWithin(s, a, d)
    ensures LeadsLate(cfg, d, more, Step(cfg, s, a))
    ensures a in more && forall x :: x in acts ==> x in more
  {
    more := acts + [a];
    assert more[..|acts|] == acts;
  }

  // Request 0 has found no row and not inserted its own yet.
  ghost function Dawdling(cfg: Config, k: Slot, h: string): Sys {
    Sys(FirstAt(cfg), Some(0), map[], map[], map[],
        map[3 := Request(k, h, 0, Cleaning), 0 := Request(k, h, FirstAt(cfg), Inserting)], [])
  }

  lemma DawdlingRun(cfg: Config, d: int, k: Slot, h: string) returns (acts: seq<Act>)
    requires cfg.Valid()
    ensures LeadsLate(cfg, d, acts, Dawdling(cfg, k, h))
  {
    OpeningSteps(cfg, k, h);
    var s1 := Step(cfg, Init(), Arrive(3, k, h));
    var s2 := Step(cfg, s1, Tick(FirstAt(cfg)));
    var s3 := Step(cfg, s2, Arrive(0, k, h));
    acts := ExtendLate(cfg, d, [], Init(), Arrive(3, k, h));
    acts := ExtendLate(cfg, d, acts, s1, Tick(FirstAt(cfg)));
    acts := ExtendLate(cfg, d, acts, s2, Arrive(0, k, h));
    acts := ExtendLate(cfg, d, acts, s3, Query(0, true));
    var s4 := Step(cfg, s3, Query(0, true));
    assert s4.requests == Dawdling(cfg, k, h).requests;
  }

  // Request 1 has swept, and request 0 not inserted its row yet.
  ghost function SweptBefore(cfg: Config, k: Slot, h: string): Sys {
    var t := FirstAt(cfg) + cfg.ttl;
    Sys(t, Some(t), map[], map[], map[],
        Dawdling(cfg, k, h).requests[1 := Request(k, h, t, Selecting)], [])
  }

  lemma SweptBeforeRun(cfg: Config, d: int, k: Slot, h: string) returns (acts: seq<Act>)
    requires cfg.Valid()
    ensures LeadsLate(cfg, d, acts, SweptBefore(cfg, k, h)) && CleanUp(1, true) in acts
  {
    var s, t := Dawdling(cfg, k, h), FirstAt(cfg) + cfg.ttl;
    acts := DawdlingRun(cfg, d, k, h);
    acts := ExtendLate(cfg, d, acts, s, Tick(t));
    var s1 := Step(cfg, s, Tick(t));
    acts := ExtendLate(cfg, d, acts, s1, Arrive(1, k, h));
    var s2 := Step(cfg, s1, Arrive(1, k, h));
    acts := ExtendLate(cfg, d, acts, s2, CleanUp(1, true));
    var s3 := Step(cfg, s2, CleanUp(1, true));
    assert s3.requests == SweptBefore(cfg, k, h).requests;
    assert s3.rows == map[];
  }

  lemma LateInsertSteps(cfg: Config, s: Sys, k: Slot, h: string)
    requires s == SweptBefore(cfg, k, h)
    ensures Legal(s, Insert(0, Committed))
    ensures var s1 := Step(cfg, s, Insert(0, Committed));
      && Legal(s1, Return(0, []))
      && var s2 := Step(cfg, s1, Return(0, []));
         && Legal(s2, Store(0, true))
         && var s3 := Step(cfg, s2, Store(0, true));
            && Legal(s3, Query(1, true))
            && var s4 := Step(cfg, s3, Query(1, true));
               && IsReplay(s4, 1) && s4.requests[1].status.reply.from == 0 && 0 in s4.requests
               && s4.requests[0].now + cfg.ttl == s4.requests[1].now
  {
    var s1 := Step(cfg, s, Insert(0, Committed));
    assert s1.requests[0] == Request(k, h, FirstAt(cfg), Running);
    var s3 := Step(cfg, Step(cfg, s1, Return(0, [])), Store(0, true));
    assert s3.rows[k].response.Some? && s3.rows[k].requestHash == h && s3.owner[k] == 0;
    assert s3.requests[1] == Request(k, h, FirstAt(cfg) + cfg.ttl, Selecting);
  }

  // Whatever the configuration: a request that arrived ttl ago inserts its row
  // after the sweep, expired already, and its response is replayed.
  lemma LateInsertReplayed(cfg: Config, d: int) returns (acts: seq<Act>)
    requires cfg.Valid() && d >= cfg.ttl
    ensures LegalRun(cfg, acts) && InsertsWithin(cfg, acts, d) && CleanUp(1, true) in acts && IsReplay(Run(cfg, acts), 1)
    ensures var s := Run(cfg, acts);
      var from := s.requests[1].status.reply.from;
      from in s.requests && s.requests[from].now + cfg.ttl == s.requests[1].now
  {
    var k, h := Slot("", ""), "";
    var s := SweptBefore(cfg, k, h);
    acts := SweptBeforeRun(cfg, d, k, h);
    LateInsertSteps(cfg, s, k, h);
    var s1 := Step(cfg, s, Insert(0, Committed));
    var s2 := Step(cfg, s1, Return(0, []));
    acts := ExtendLate(cfg, d, acts, s, Insert(0, Committed));
    acts := ExtendLate(cfg, d, acts, s1, Return(0, []));
    acts := ExtendLate(cfg, d, acts, s2, Store(0, true));
    acts := ExtendLate(cfg, d, acts, Step(cfg, s2, Store(0, true)), Query(1, true));
  }

  // If every row of a run is inserted within d, a request that swept is answered
  // only from rows that had not expired at its own reading.
  ghost predicate SweptAnsweredFresh(cfg: Config, acts: seq<Act>, d: int) {
    LegalRun(cfg, acts) && InsertsWithin(cfg, acts, d) ==>
      forall id :: CleanUp(id, true) in acts && IsReplay(Run(cfg, acts), id) ==> FreshFor(cfg, Run(cfg, acts), id)
  }

  // That is so of every run exactly when d is below the ttl.
  lemma ExpiryIff(cfg: Config, d: int)
    requires cfg.Valid()
    ensures (forall acts :: SweptAnsweredFresh(cfg, acts, d)) <==> d < cfg.ttl
  {
    if d < cfg.ttl {
      forall acts ensures SweptAnsweredFresh(cfg, acts, d) {
        if LegalRun(cfg, acts) && InsertsWithin(cfg, acts, d) {
          forall id | CleanUp(id, true) in acts ensures FreshFor(cfg, Run(cfg, acts), id) {
            RunKeepsFresh(cfg, acts, d, id);
          }
        }
      }
    } else {
      var acts := LateInsertReplayed(cfg, d);
      assert !FreshFor(cfg, Run(cfg, acts), 1);
      assert !SweptAnsweredFresh(cfg, acts, d);
    }
  }
}
