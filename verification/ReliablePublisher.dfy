/** The reliable publisher of natsbus/reliable.go: publish, else dead-letter,
    else report; and a serialized replay of the dead letters.

    JetStream is a log of what it accepted.  It may accept a message and lose the
    acknowledgement, so an attempt that fails may still have been accepted.
 */
module ReliablePublisher {
  import B = Breaker
  import opened DeadLetters
  import R = Retry
  import opened Text

  // What JetStream did with one attempt: stored and acknowledged it, stored it
  // and the acknowledgement was lost, or did not get it.
  datatype Send = Acked | Unheard(err: R.Error) | Lost(err: R.Error)

  function Seen(x: Send): R.Attempt { if x.Acked? then R.Success else R.Failed(x.err) }

  // Copies stored by the first n attempts.
  function Copies(js: nat -> Send, n: nat): nat {
    if n == 0 then 0 else Copies(js, n - 1) + if js(n - 1).Lost? then 0 else 1
  }

  function Repeated(m: Msg, n: nat): seq<Msg> { seq(n, i => m) }

  // What one publishMessage call meets: JetStream, the jitter, the context, and
  // the clock as the breaker lets it in and as it returns.
  datatype Conditions = Conditions(js: nat -> Send, draws: nat -> nat, waits: nat -> R.Wait, before: int, after: int)

  predicate AckedAt(js: nat -> Send, n: nat) { n > 0 && js(n - 1).Acked? }

  // Attempt i is the last one: acknowledged, not to be retried, the last allowed,
  // or followed by a backoff that the context cuts short.
  predicate Ends(retry: R.Config, cls: R.Classifier, c: Conditions, i: nat) {
    var cfg := retry.WithDefaults();
    R.Last(cfg, cls, Seen(c.js(i)), c.waits(i), i, R.Delay(cfg, i, c.draws(i)))
  }

  // n attempts were made and the call returned nil exactly if ok: none if the
  // breaker rejects it, else up to the first that ends the retries, with its
  // outcome told to the breaker.
  ghost predicate Tried(b: B.Config, was: B.Core, now: B.Core, retry: R.Config, cls: R.Classifier, c: Conditions,
                        ok: bool, n: nat) {
    var a := B.Admit(b, was, c.before);
    && (n == 0 <==> !a.admitted)
    && n <= retry.WithDefaults().maxAttempts
    && (n > 0 ==> Ends(retry, cls, c, n - 1)) && (forall i: nat :: i < n - 1 ==> !Ends(retry, cls, c, i))
    && (ok <==> AckedAt(c.js, n))
    && now == if a.admitted then B.Settle(b, a.core, a.probe, ok, c.after) else a.core
  }

  // What the listed records put into the log, with so many attempts each.
  function Delivered(ls: seq<Listed>, cs: nat -> Conditions, sent: seq<nat>): seq<Msg>
    requires |sent| <= |ls|
    decreases |sent|
  {
    if sent == [] then []
    else
      var n := |sent| - 1;
      Delivered(ls, cs, sent[..n]) + Repeated(ls[n].record.Message(), Copies(cs(n).js, sent[n]))
  }

  datatype Outcome = Published | DeadLettered(name: string) | NotPersisted

  class ReliablePublisher {
    const deadLetters: DeadLetterStore
    const breaker: B.Breaker
    const retry: R.Config
    const cls: R.Classifier
    const replayBatchSize: int
    var accepted: seq<Msg>

    // A batch size below 1 means 10.
    constructor (existing: Directory, batch: int, breakerConfig: B.Config, retryConfig: R.Config, classifier: R.Classifier)
      ensures fresh(deadLetters) && deadLetters.dir == existing && deadLetters.Counted() && accepted == []
      ensures fresh(breaker) && breaker.cfg == breakerConfig.WithDefaults() && breaker.View() == B.Fresh()
      ensures retry == retryConfig && cls == classifier
      ensures replayBatchSize == (if batch < 1 then 10 else batch) && replayBatchSize >= 1
    {
      deadLetters := new DeadLetterStore(existing);
      breaker := new B.Breaker(breakerConfig);
      retry, cls := retryConfig, classifier;
      replayBatchSize := if batch < 1 then 10 else batch;
      accepted := [];
    }

    method PublishMessage(m: Msg, c: Conditions) returns (ok: bool, attempts: nat)
      modifies this, breaker
      ensures accepted == old(accepted) + Repeated(m, Copies(c.js, attempts))
      ensures Tried(breaker.cfg, old(breaker.View()), breaker.View(), retry, cls, c, ok, attempts)
    {
      var js := (i: nat) => Seen(c.js(i));
      ok, attempts := R.PublishMessage(breaker, retry, cls, js, c.draws, c.waits, c.before, c.after);
      forall i: nat | i < attempts - 1 ensures !Ends(retry, cls, c, i) { assert js(i) == Seen(c.js(i)); }
      accepted := accepted + Repeated(m, Copies(c.js, attempts));
    }

    // nil means that JetStream has the message.  A call that the breaker rejects
    // sends nothing, and like every other that ends without an acknowledgement
    // leaves the message in the directory, or says that it could not.
    method Publish(m: Msg, c: Conditions, id: string, createdAt: Stamp, error: string, saveFails: bool)
      returns (out: Outcome, attempts: nat)
      modifies this, deadLetters, breaker
      ensures accepted == old(accepted) + Repeated(m, Copies(c.js, attempts))
      ensures Tried(breaker.cfg, old(breaker.View()), breaker.View(), retry, cls, c, out.Published?, attempts)
      ensures out.Published? ==> m in accepted[|old(accepted)|..] && deadLetters.dir == old(deadLetters.dir)
      ensures !B.Admit(breaker.cfg, old(breaker.View()), c.before).admitted ==> accepted == old(accepted) && !out.Published?
      ensures !out.Published? ==> out == if saveFails then NotPersisted else DeadLettered(FileName(createdAt, id))
      ensures out.DeadLettered? ==>
        && out.name in deadLetters.dir && deadLetters.dir[out.name].Letter?
        && deadLetters.dir[out.name].record == Record(id, createdAt, m.subject, m.header, m.data, error)
        && deadLetters.dir[out.name].record.Message() == m.(reply := "")
        && deadLetters.dir == old(deadLetters.dir)[out.name := deadLetters.dir[out.name]]
      ensures !out.DeadLettered? ==> deadLetters.dir == old(deadLetters.dir)
    {
      var ok;
      ok, attempts := PublishMessage(m, c);
      if ok {
        AckedIsStored(m, c.js, attempts);
        return Published, attempts;
      }
      var record := Record(id, createdAt, m.subject, m.header, m.data, error);
      var saved := deadLetters.Save(record, saveFails);
      if !saved {
        return NotPersisted, attempts;
      }
      return DeadLettered(FileName(createdAt, id)), attempts;
    }

    // One record: published, then removed.
    method ReplayRecord(r: Listed, c: Conditions, removeFails: bool) returns (gone: bool, attempts: nat)
      modifies this, deadLetters, breaker
      ensures accepted == old(accepted) + Repeated(r.record.Message(), Copies(c.js, attempts))
      ensures Tried(breaker.cfg, old(breaker.View()), breaker.View(), retry, cls, c,
                    AckedAt(c.js, attempts), attempts)
      ensures gone <==> AckedAt(c.js, attempts) && !removeFails && r.name in old(deadLetters.dir)
      ensures gone ==> deadLetters.dir == old(deadLetters.dir) - {r.name}
      ensures !gone ==> deadLetters.dir == old(deadLetters.dir)
      ensures old(deadLetters.Counted()) && IsRecordFile(old(deadLetters.dir), r.name) ==> deadLetters.Counted()
    {
      var ok;
      ok, attempts := PublishMessage(r.record.Message(), c);
      if !ok {
        return false, attempts;
      }
      gone := deadLetters.Delete(r.name, removeFails);
    }

    // The listed records in turn, up to the first that cannot be published or
    // removed.  Exactly a prefix of them leaves the directory, each after an
    // acknowledgement; what JetStream stored is from that prefix or one record
    // more.  cores are the breaker's states from record to record: each record is
    // retried to its end, and the first that the breaker rejects ends the pass.
    method ReplayListed(listed: seq<Listed>, cs: nat -> Conditions, removeFails: nat -> bool)
      returns (removed: nat, sent: seq<nat>, ghost cores: seq<B.Core>)
      requires FirstRecords(deadLetters.dir, replayBatchSize, listed)
      modifies this, deadLetters, breaker
      ensures PassLog(listed, cs, removeFails, removed, sent)
      ensures Chained(breaker.cfg, retry, cls, cs, sent, cores)
      ensures cores[0] == old(breaker.View()) && cores[|sent|] == breaker.View()
      ensures deadLetters.dir == old(deadLetters.dir) - NamesOf(listed[..removed])
      ensures old(deadLetters.Counted()) ==> deadLetters.Counted()
      ensures accepted == old(accepted) + Delivered(listed, cs, sent)
    {
      removed, sent, cores := 0, [], [breaker.View()];
      NothingDropped(deadLetters.dir, listed);
      while removed < |listed|
        invariant removed == |sent| <= |listed|
        invariant PassLog(listed[..removed], cs, removeFails, removed, sent)
        invariant Chained(breaker.cfg, retry, cls, cs, sent, cores)
        invariant cores[0] == old(breaker.View()) && cores[|sent|] == breaker.View()
        invariant deadLetters.dir == old(deadLetters.dir) - NamesOf(listed[..removed])
        invariant old(deadLetters.Counted()) ==> deadLetters.Counted()
        invariant accepted == old(accepted) + Delivered(listed, cs, sent)
      {
        StillThere(old(deadLetters.dir), replayBatchSize, listed, removed);
        var gone, attempts := ReplayRecord(listed[removed], cs(removed), removeFails(removed));
        DeliveredMore(old(accepted), listed, cs, sent, attempts);
        LogMore(listed, cs, removeFails, removed, sent, attempts);
        ChainMore(breaker.cfg, retry, cls, cs, sent, cores, attempts, breaker.View());
        sent, cores := sent + [attempts], cores + [breaker.View()];
        if !gone {
          return;
        }
        DropNext(old(deadLetters.dir), listed, removed);
        removed := removed + 1;
      }
      assert listed[..removed] == listed;
    }

    // The directory can be listed.
    ghost predicate Listable(dirFails: bool, unreadable: set<string>)
      reads deadLetters
    {
      !dirFails && forall n :: !Spoils(deadLetters.dir, replayBatchSize, unreadable, n)
    }

    // One pass over the oldest records, if they can be listed.
    method ReplayOnce(cs: nat -> Conditions, removeFails: nat -> bool, dirFails: bool, unreadable: set<string>)
      returns (ok: bool, listed: seq<Listed>, removed: nat, sent: seq<nat>, ghost cores: seq<B.Core>)
      requires replayBatchSize >= 1
      modifies this, deadLetters, breaker
      ensures old(Listable(dirFails, unreadable)) ==> FirstRecords(old(deadLetters.dir), replayBatchSize, listed)
      ensures !old(Listable(dirFails, unreadable)) ==> listed == []
      ensures ok <==> old(Listable(dirFails, unreadable)) && removed == |listed|
      ensures PassLog(listed, cs, removeFails, removed, sent)
      ensures Chained(breaker.cfg, retry, cls, cs, sent, cores)
      ensures cores[0] == old(breaker.View()) && cores[|sent|] == breaker.View()
      ensures deadLetters.dir == old(deadLetters.dir) - NamesOf(listed[..removed])
      ensures old(deadLetters.Counted()) ==> deadLetters.Counted()
      ensures accepted == old(accepted) + Delivered(listed, cs, sent)
    {
      var found;
      found, listed := deadLetters.List(replayBatchSize, dirFails, unreadable);
      if !found {
        NothingDropped(deadLetters.dir, []);
        return false, [], 0, [], [breaker.View()];
      }
      removed, sent, cores := ReplayListed(listed, cs, removeFails);
      ok := removed == |listed|;
    }
  }

  // What a pass over the listed records did: sent has the attempts made for each
  // record tried, and removed is how many were acknowledged and removed.
  ghost predicate PassLog(listed: seq<Listed>, cs: nat -> Conditions, removeFails: nat -> bool, removed: nat, sent: seq<nat>) {
    && removed <= |listed| && |sent| == (if removed == |listed| then removed else removed + 1)
    && (forall i :: 0 <= i < removed ==> AckedAt(cs(i).js, sent[i]) && !removeFails(i))
    && (removed < |listed| ==> !AckedAt(cs(removed).js, sent[removed]) || removeFails(removed))
  }

  lemma LogMore(listed: seq<Listed>, cs: nat -> Conditions, removeFails: nat -> bool, n: nat, sent: seq<nat>, attempts: nat)
    requires n < |listed| && n == |sent| && PassLog(listed[..n], cs, removeFails, n, sent)
    ensures if AckedAt(cs(n).js, attempts) && !removeFails(n)
            then PassLog(listed[..n + 1], cs, removeFails, n + 1, sent + [attempts])
            else PassLog(listed, cs, removeFails, n, sent + [attempts])
  {
  }

  // Each record tried was one publishMessage call, from the breaker state the one before left.
  ghost predicate Chained(b: B.Config, retry: R.Config, cls: R.Classifier, cs: nat -> Conditions, sent: seq<nat>,
                          cores: seq<B.Core>) {
    && |cores| == |sent| + 1
    && forall i: nat :: i < |sent| ==>
         Tried(b, cores[i], cores[i + 1], retry, cls, cs(i), AckedAt(cs(i).js, sent[i]), sent[i])
  }

  lemma ChainMore(b: B.Config, retry: R.Config, cls: R.Classifier, cs: nat -> Conditions, sent: seq<nat>,
                  cores: seq<B.Core>, n: nat, next: B.Core)
    requires Chained(b, retry, cls, cs, sent, cores)
    requires Tried(b, cores[|sent|], next, retry, cls, cs(|sent|), AckedAt(cs(|sent|).js, n), n)
    ensures Chained(b, retry, cls, cs, sent + [n], cores + [next])
  {
    var more, after := sent + [n], cores + [next];
    forall i: nat | i < |more|
      ensures Tried(b, after[i], after[i + 1], retry, cls, cs(i), AckedAt(cs(i).js, more[i]), more[i])
    {
      if i < |sent| {
        assert after[i] == cores[i] && after[i + 1] == cores[i + 1] && more[i] == sent[i];
      }
    }
  }

  // A copy for every attempt that was not lost, acknowledged or not.
  lemma {:induction false} CopiesCount(js: nat -> Send, n: nat)
    ensures Copies(js, n) == |set i: nat | i < n && !js(i).Lost?|
  {
    var all := set i: nat | i < n && !js(i).Lost?;
    if n == 0 {
      assert all == {};
    } else {
      CopiesCount(js, n - 1);
      var before := set i: nat | i < n - 1 && !js(i).Lost?;
      assert all == if js(n - 1).Lost? then before else before + {n - 1};
    }
  }

  // A pass stores, record by record in the order listed, a copy for every attempt
  // that was not lost; so every acknowledged record is there.
  lemma {:induction false} DeliveredHas(ls: seq<Listed>, cs: nat -> Conditions, sent: seq<nat>, i: nat)
    requires i < |sent| <= |ls| && AckedAt(cs(i).js, sent[i])
    ensures ls[i].record.Message() in Delivered(ls, cs, sent)
  {
    var n := |sent| - 1;
    if i < n {
      DeliveredHas(ls, cs, sent[..n], i);
    } else {
      AckedIsStored(ls[i].record.Message(), cs(i).js, sent[i]);
    }
  }

  lemma AckedIsStored(m: Msg, js: nat -> Send, n: nat)
    requires AckedAt(js, n)
    ensures m in Repeated(m, Copies(js, n))
  {
    assert Repeated(m, Copies(js, n))[0] == m;
  }

  lemma DeliveredMore(log: seq<Msg>, ls: seq<Listed>, cs: nat -> Conditions, sent: seq<nat>, n: nat)
    requires |sent| < |ls|
    ensures log + Delivered(ls, cs, sent + [n])
         == log + Delivered(ls, cs, sent) + Repeated(ls[|sent|].record.Message(), Copies(cs(|sent|).js, n))
  {
    var t := sent + [n];
    assert t[..|t| - 1] == sent;
    AppendAssoc(log, Delivered(ls, cs, sent), Repeated(ls[|sent|].record.Message(), Copies(cs(|sent|).js, n)));
  }

  lemma AppendAssoc(a: seq<Msg>, b: seq<Msg>, c: seq<Msg>)
    ensures (a + b) + c == a + (b + c)
  {
  }

  lemma NothingDropped(dir: Directory, ls: seq<Listed>)
    ensures dir - NamesOf(ls[..0]) == dir
  {
    assert NamesOf(ls[..0]) == {};
  }

  lemma NamesGrow(ls: seq<Listed>, n: nat)
    requires n < |ls|
    ensures NamesOf(ls[..n + 1]) == NamesOf(ls[..n]) + {ls[n].name}
  {
    assert forall i :: 0 <= i < n ==> ls[..n][i] == ls[..n + 1][i];
    assert ls[..n + 1][n] == ls[n];
  }

  lemma DropNext(dir: Directory, ls: seq<Listed>, n: nat)
    requires n < |ls|
    ensures (dir - NamesOf(ls[..n])) - {ls[n].name} == dir - NamesOf(ls[..n + 1])
  {
    NamesGrow(ls, n);
  }

  // A listed record is not among those removed before it.
  lemma StillThere(dir: Directory, limit: int, ls: seq<Listed>, n: nat)
    requires FirstRecords(dir, limit, ls) && n < |ls|
    ensures IsRecordFile(dir - NamesOf(ls[..n]), ls[n].name)
  {
    forall i | 0 <= i < n ensures ls[i].name != ls[n].name { LessTotal(ls[i].name, ls[n].name); }
  }

  // ---------------------------------------------------------------------------
  // Every interleaving, with crashes

  // What makes two messages copies of each other.
  datatype Content = Content(subject: string, header: Header, data: seq<bv8>)

  function ContentOf(m: Msg): Content { Content(m.subject, m.header, m.data) }

  function Saved(r: Record): Content { Content(r.subject, r.header, r.data) }

  // One Publish call.
  datatype Stage =
    | Publishing                    // inside the breaker and its retry loop
    | Failed                        // publishMessage returned an error
    | Staged(tmp: nat)              // the record is in a temporary file
    | Renamed(name: string)         // and now under its own name, not counted yet
    | Returned(out: Outcome)

  datatype Call = Call(msg: Msg, stage: Stage)

  // The replay pass that holds replayMu.
  datatype Pass =
    | NoPass
    | Sending(todo: seq<Listed>)    // publishing the first of these
    | Removing(todo: seq<Listed>)   // it was acknowledged
    | Uncounted(todo: seq<Listed>)  // its file is gone, not counted yet

  datatype Sys = Sys(
    letters: map<string, Record>,   // record files in the directory
    temps: set<nat>,                // temporary files
    orphans: set<nat>,              // those a crash left behind
    count: int,
    accepted: seq<Content>,         // JetStream's log
    calls: map<nat, Call>,
    pass: Pass,
    saved: map<string, Record>)     // every record ever renamed into place

  datatype Act =
    | Publish(id: nat, msg: Msg)
    | Attempt(id: nat, stored: bool, acked: bool)
    | GiveUp(id: nat)
    | WriteTemp(id: nat, tmp: nat)
    | SaveFails(id: nat)
    | Rename(id: nat, name: string, record: Record)
    | CountUp(id: nat)
    | List(todo: seq<Listed>)
    | Resend(stored: bool, acked: bool)
    | StopPass
    | Remove
    | CountDown
    | Crash

  function Init(letters: map<string, Record>): Sys {
    Sys(letters, {}, {}, |letters|, [], map[], NoPass, letters)
  }

  predicate InStage(s: Sys, id: nat, st: Stage) { id in s.calls && s.calls[id].stage == st }

  predicate Distinct(ls: seq<Listed>) {
    forall i, j :: 0 <= i < j < |ls| ==> ls[i].name != ls[j].name
  }

  predicate Present(s: Sys, ls: seq<Listed>) {
    forall i :: 0 <= i < |ls| ==> ls[i].name in s.letters && s.letters[ls[i].name] == ls[i].record
  }

  predicate Legal(s: Sys, a: Act) {
    match a
    case Publish(id, _) => id !in s.calls
    case Attempt(id, stored, acked) => InStage(s, id, Publishing) && (acked ==> stored)
    case GiveUp(id) => InStage(s, id, Publishing)
    case WriteTemp(id, tmp) => InStage(s, id, Failed) && tmp !in s.temps
    case SaveFails(id) => id in s.calls && (s.calls[id].stage.Failed? || s.calls[id].stage.Staged?)
    // ids are UUIDs: a new name was never used before
    case Rename(id, name, r) =>
      id in s.calls && s.calls[id].stage.Staged? && name !in s.saved && Saved(r) == ContentOf(s.calls[id].msg)
    case CountUp(id) => id in s.calls && s.calls[id].stage.Renamed?
    case List(todo) => s.pass.NoPass? && todo != [] && Distinct(todo) && Present(s, todo)
    case Resend(stored, acked) => s.pass.Sending? && s.pass.todo != [] && (acked ==> stored)
    case StopPass => s.pass.Sending? || s.pass.Removing?
    case Remove => s.pass.Removing? && s.pass.todo != []
    case CountDown => s.pass.Uncounted? && s.pass.todo != []
    case Crash => true
  }

  function To(s: Sys, id: nat, st: Stage): Sys
    requires id in s.calls
  {
    s.(calls := s.calls[id := s.calls[id].(stage := st)])
  }

  function Log(s: Sys, c: Content, stored: bool): Sys {
    if stored then s.(accepted := s.accepted + [c]) else s
  }

  function Step(s: Sys, a: Act): Sys
    requires Legal(s, a)
  {
    match a
    case Publish(id, m) => s.(calls := s.calls[id := Call(m, Publishing)])
    case Attempt(id, stored, acked) =>
      var t := Log(s, ContentOf(s.calls[id].msg), stored);
      if acked then To(t, id, Returned(Published)) else t
    case GiveUp(id) => To(s, id, Failed)
    case WriteTemp(id, tmp) => To(s, id, Staged(tmp)).(temps := s.temps + {tmp})
    case SaveFails(id) =>
      To(s, id, Returned(NotPersisted)).(
        temps := if s.calls[id].stage.Staged? then s.temps - {s.calls[id].stage.tmp} else s.temps)
    case Rename(id, name, r) =>
      To(s, id, Renamed(name)).(
        temps := s.temps - {s.calls[id].stage.tmp}, letters := s.letters[name := r], saved := s.saved[name := r])
    case CountUp(id) => To(s, id, Returned(DeadLettered(s.calls[id].stage.name))).(count := s.count + 1)
    case List(todo) => s.(pass := Sending(todo))
    case Resend(stored, acked) =>
      var t := Log(s, Saved(s.pass.todo[0].record), stored);
      if acked then t.(pass := Removing(s.pass.todo)) else t
    case StopPass => s.(pass := NoPass)
    case Remove => s.(letters := s.letters - {s.pass.todo[0].name}, pass := Uncounted(s.pass.todo))
    case CountDown =>
      s.(count := s.count - 1, pass := if |s.pass.todo| == 1 then NoPass else Sending(s.pass.todo[1..]))
    // Calls that have not returned are gone; the directory and JetStream stay;
    // the restarted process scans the directory.
    case Crash =>
      s.(calls := map id | id in s.calls && s.calls[id].stage.Returned? :: s.calls[id],
         pass := NoPass, count := |s.letters|, orphans := s.temps)
  }

  ghost predicate LegalRun(s: Sys, acts: seq<Act>)
    decreases |acts|
  {
    acts == [] || (Legal(s, acts[0]) && LegalRun(Step(s, acts[0]), acts[1..]))
  }

  ghost function Run(s: Sys, acts: seq<Act>): Sys
    requires LegalRun(s, acts)
    decreases |acts|
  {
    if acts == [] then s else Run(Step(s, acts[0]), acts[1..])
  }

  // --- The invariant

  // Every record ever saved is in the directory, or a copy of it was accepted.
  ghost predicate NoRecordLost(s: Sys) {
    && s.letters.Keys <= s.saved.Keys
    && (forall n :: n in s.letters ==> s.letters[n] == s.saved[n])
    && (forall n :: n in s.saved ==> n in s.letters || Saved(s.saved[n]) in s.accepted)
  }

  // What a call has reported, or is about to.
  ghost predicate Kept(s: Sys, c: Call) {
    match c.stage
    case Returned(Published) => ContentOf(c.msg) in s.accepted
    case Returned(DeadLettered(n)) => n in s.saved && Saved(s.saved[n]) == ContentOf(c.msg)
    case Renamed(n) => n in s.saved && Saved(s.saved[n]) == ContentOf(c.msg)
    case _ => true
  }

  ghost predicate PassOk(s: Sys) {
    match s.pass
    case NoPass => true
    case Sending(todo) => todo != [] && Distinct(todo) && Present(s, todo)
    case Removing(todo) => todo != [] && Distinct(todo) && Present(s, todo) && Saved(todo[0].record) in s.accepted
    case Uncounted(todo) => todo != [] && Distinct(todo) && Present(s, todo[1..])
  }

  function RenamedCalls(s: Sys): set<nat> { set id | id in s.calls && s.calls[id].stage.Renamed? }

  ghost predicate CountOk(s: Sys) {
    s.count == |s.letters.Keys| - |RenamedCalls(s)| + if s.pass.Uncounted? then 1 else 0
  }

  ghost predicate Inv(s: Sys) {
    NoRecordLost(s) && (forall id :: id in s.calls ==> Kept(s, s.calls[id])) && PassOk(s) && CountOk(s)
  }

  lemma LogKeepsInv(s: Sys, c: Content, stored: bool)
    requires Inv(s)
    ensures Inv(Log(s, c, stored))
    ensures stored ==> c in Log(s, c, stored).accepted
  {
    var t := Log(s, c, stored);
    assert forall x :: x in s.accepted ==> x in t.accepted;
    assert RenamedCalls(t) == RenamedCalls(s);
    forall id | id in t.calls ensures Kept(t, t.calls[id]) { assert Kept(s, s.calls[id]); }
  }

  // A call moves to a stage whose promise holds, neither being Renamed.
  lemma MoveKeepsInv(s: Sys, id: nat, st: Stage)
    requires Inv(s) && id in s.calls && Kept(s, Call(s.calls[id].msg, st))
    requires !s.calls[id].stage.Renamed? && !st.Renamed?
    ensures Inv(To(s, id, st))
  {
    var t := To(s, id, st);
    assert RenamedCalls(t) == RenamedCalls(s);
    forall x | x in t.calls ensures Kept(t, t.calls[x]) { assert x in s.calls && Kept(s, s.calls[x]); }
  }

  lemma PublishKeepsInv(s: Sys, id: nat, m: Msg)
    requires Inv(s) && id !in s.calls
    ensures Inv(s.(calls := s.calls[id := Call(m, Publishing)]))
  {
    var t := s.(calls := s.calls[id := Call(m, Publishing)]);
    assert RenamedCalls(t) == RenamedCalls(s);
    forall x | x in t.calls ensures Kept(t, t.calls[x]) { assert x != id ==> Kept(s, s.calls[x]); }
  }

  lemma TempsKeepInv(s: Sys, temps: set<nat>)
    requires Inv(s)
    ensures Inv(s.(temps := temps))
  {
    var t := s.(temps := temps);
    assert RenamedCalls(t) == RenamedCalls(s);
    forall x | x in t.calls ensures Kept(t, t.calls[x]) { assert Kept(s, s.calls[x]); }
  }

  lemma RenameKeepsRecords(s: Sys, id: nat, name: string, r: Record)
    requires Inv(s) && Legal(s, Rename(id, name, r))
    ensures NoRecordLost(Step(s, Rename(id, name, r))) && PassOk(Step(s, Rename(id, name, r)))
  {
    assert name !in s.letters.Keys;
  }

  lemma RenameKeys(s: Sys, id: nat, name: string, r: Record)
    requires s.letters.Keys <= s.saved.Keys && Legal(s, Rename(id, name, r))
    ensures var t := Step(s, Rename(id, name, r));
      && name !in s.letters.Keys && t.letters.Keys == s.letters.Keys + {name} && t.calls.Keys == s.calls.Keys
      && t.calls == s.calls[id := Call(s.calls[id].msg, Renamed(name))]
  {
  }

  lemma RenameKeepsCalls(s: Sys, id: nat, name: string, r: Record, x: nat)
    requires Inv(s) && Legal(s, Rename(id, name, r)) && x in s.calls
    ensures var t := Step(s, Rename(id, name, r)); x in t.calls && Kept(t, t.calls[x])
  {
    assert Kept(s, s.calls[x]);
  }

  lemma RenameKeepsCount(s: Sys, t: Sys, id: nat, name: string, c: Call)
    requires CountOk(s) && id in s.calls && !s.calls[id].stage.Renamed? && c.stage.Renamed? && name !in s.letters.Keys
    requires t.calls == s.calls[id := c] && t.letters.Keys == s.letters.Keys + {name}
    requires t.count == s.count && t.pass == s.pass
    ensures CountOk(t)
  {
    assert RenamedCalls(t) == RenamedCalls(s) + {id};
  }

  lemma RenameKeepsInv(s: Sys, id: nat, name: string, r: Record)
    requires Inv(s) && Legal(s, Rename(id, name, r))
    ensures Inv(Step(s, Rename(id, name, r)))
  {
    RenameKeepsRecords(s, id, name, r);
    var t := Step(s, Rename(id, name, r));
    RenameKeys(s, id, name, r);
    RenameKeepsCount(s, t, id, name, t.calls[id]);
    forall x | x in t.calls ensures Kept(t, t.calls[x]) { RenameKeepsCalls(s, id, name, r, x); }
  }

  lemma CountUpKeepsCount(s: Sys, t: Sys, id: nat)
    requires CountOk(s) && Legal(s, CountUp(id)) && t == Step(s, CountUp(id))
    ensures CountOk(t)
  {
    assert RenamedCalls(t) == RenamedCalls(s) - {id} && id in RenamedCalls(s);
  }

  lemma CountUpKeepsInv(s: Sys, id: nat)
    requires Inv(s) && Legal(s, CountUp(id))
    ensures Inv(Step(s, CountUp(id)))
  {
    var t := Step(s, CountUp(id));
    CountUpKeepsCount(s, t, id);
    forall x | x in t.calls ensures Kept(t, t.calls[x]) { assert Kept(s, s.calls[x]); }
  }

  lemma PassKeepsInv(s: Sys, p: Pass)
    requires Inv(s) && !s.pass.Uncounted? && !p.Uncounted? && PassOk(s.(pass := p))
    ensures Inv(s.(pass := p))
  {
    var t := s.(pass := p);
    assert RenamedCalls(t) == RenamedCalls(s);
    forall x | x in t.calls ensures Kept(t, t.calls[x]) { assert Kept(s, s.calls[x]); }
  }

  lemma RemoveKeepsInv(s: Sys)
    requires Inv(s) && Legal(s, Remove)
    ensures Inv(Step(s, Remove))
  {
    var t, gone := Step(s, Remove), s.pass.todo[0].name;
    assert RenamedCalls(t) == RenamedCalls(s);
    assert gone in s.letters && t.letters.Keys == s.letters.Keys - {gone};
    assert forall i :: 0 <= i < |s.pass.todo[1..]| ==> s.pass.todo[1..][i] == s.pass.todo[i + 1];
    forall x | x in t.calls ensures Kept(t, t.calls[x]) { assert Kept(s, s.calls[x]); }
  }

  lemma CountDownKeepsInv(s: Sys)
    requires Inv(s) && Legal(s, CountDown)
    ensures Inv(Step(s, CountDown))
  {
    var t := Step(s, CountDown);
    assert RenamedCalls(t) == RenamedCalls(s);
    assert forall i :: 0 <= i < |s.pass.todo[1..]| ==> s.pass.todo[1..][i] == s.pass.todo[i + 1];
    forall x | x in t.calls ensures Kept(t, t.calls[x]) { assert Kept(s, s.calls[x]); }
  }

  lemma CrashKeepsInv(s: Sys)
    requires Inv(s)
    ensures Inv(Step(s, Crash))
  {
    var t := Step(s, Crash);
    assert RenamedCalls(t) == {};
    forall x | x in t.calls ensures Kept(t, t.calls[x]) { assert Kept(s, s.calls[x]); }
  }

  lemma StepKeepsInv(s: Sys, a: Act)
    requires Inv(s) && Legal(s, a)
    ensures Inv(Step(s, a))
  {
    match a
    case Publish(id, m) => PublishKeepsInv(s, id, m);
    case Attempt(id, stored, acked) =>
      var c := ContentOf(s.calls[id].msg);
      LogKeepsInv(s, c, stored);
      if acked { MoveKeepsInv(Log(s, c, stored), id, Returned(Published)); }
    case GiveUp(id) => MoveKeepsInv(s, id, Failed);
    case WriteTemp(id, tmp) =>
      MoveKeepsInv(s, id, Staged(tmp));
      TempsKeepInv(To(s, id, Staged(tmp)), s.temps + {tmp});
    case SaveFails(id) =>
      MoveKeepsInv(s, id, Returned(NotPersisted));
      TempsKeepInv(To(s, id, Returned(NotPersisted)), Step(s, a).temps);
    case Rename(id, name, r) => RenameKeepsInv(s, id, name, r);
    case CountUp(id) => CountUpKeepsInv(s, id);
    case List(todo) => PassKeepsInv(s, Sending(todo));
    case Resend(stored, acked) =>
      var c := Saved(s.pass.todo[0].record);
      LogKeepsInv(s, c, stored);
      if acked { PassKeepsInv(Log(s, c, stored), Removing(s.pass.todo)); }
    case StopPass => PassKeepsInv(s, NoPass);
    case Remove => RemoveKeepsInv(s);
    case CountDown => CountDownKeepsInv(s);
    case Crash => CrashKeepsInv(s);
  }

  lemma {:induction false} RunKeepsInv(s: Sys, acts: seq<Act>)
    requires Inv(s) && LegalRun(s, acts)
    ensures Inv(Run(s, acts))
    decreases |acts|
  {
    if acts != [] {
      StepKeepsInv(s, acts[0]);
      RunKeepsInv(Step(s, acts[0]), acts[1..]);
    }
  }

  lemma InitInv(letters: map<string, Record>)
    ensures Inv(Init(letters))
  {
    assert RenamedCalls(Init(letters)) == {};
    assert |letters| == |letters.Keys|;
  }

  // --- What callers may rely on

  // Reports and saved records are final: neither changes for the rest of a run.
  lemma {:induction false} HistoryGrows(s: Sys, acts: seq<Act>)
    requires LegalRun(s, acts)
    ensures forall n :: n in s.saved ==> n in Run(s, acts).saved && Run(s, acts).saved[n] == s.saved[n]
    ensures forall id :: id in s.calls && s.calls[id].stage.Returned? ==>
      id in Run(s, acts).calls && Run(s, acts).calls[id] == s.calls[id]
    decreases |acts|
  {
    if acts != [] {
      HistoryGrows(Step(s, acts[0]), acts[1..]);
    }
  }

  // In the directory, or a copy with the same subject, headers and data was accepted.
  predicate Accounted(s: Sys, n: string, c: Content) {
    (n in s.letters && Saved(s.letters[n]) == c) || c in s.accepted
  }

  // In every interleaving of publishes and replay passes, with a crash and
  // restart possible at every step, from any point of the run on: a Publish that
  // has returned nil was accepted by JetStream; a message reported dead-lettered
  // is in the directory or was accepted; and so is every record ever saved.
  lemma NoLoss(letters: map<string, Record>, before: seq<Act>, after: seq<Act>)
    requires LegalRun(Init(letters), before) && LegalRun(Run(Init(letters), before), after)
    ensures var s := Run(Init(letters), before);
      var t := Run(s, after);
      && (forall id :: id in s.calls && s.calls[id].stage == Returned(Published) ==>
            id in t.calls && t.calls[id] == s.calls[id] && ContentOf(s.calls[id].msg) in t.accepted)
      && (forall id :: id in s.calls && s.calls[id].stage.Returned? && s.calls[id].stage.out.DeadLettered? ==>
            id in t.calls && t.calls[id] == s.calls[id]
            && Accounted(t, s.calls[id].stage.out.name, ContentOf(s.calls[id].msg)))
      && (forall n :: n in s.saved ==> n in t.saved && t.saved[n] == s.saved[n] && Accounted(t, n, Saved(s.saved[n])))
      && (forall n :: n in t.letters ==> n in t.saved && t.letters[n] == t.saved[n])
  {
    InitInv(letters);
    RunKeepsInv(Init(letters), before);
    var s := Run(Init(letters), before);
    RunKeepsInv(s, after);
    HistoryGrows(s, after);
    var t := Run(s, after);
    forall id | id in t.calls ensures Kept(t, t.calls[id]) { }
  }

  // No record leaves the directory, over any stretch of any run, unless a copy of it was accepted.
  lemma NothingLeavesUnaccepted(letters: map<string, Record>, before: seq<Act>, after: seq<Act>, n: string)
    requires LegalRun(Init(letters), before) && LegalRun(Run(Init(letters), before), after)
    requires n in Run(Init(letters), before).letters
    ensures var s := Run(Init(letters), before);
      var t := Run(s, after);
      && (n !in t.letters ==> Saved(s.letters[n]) in t.accepted)
      && (n in t.letters ==> t.letters[n] == s.letters[n])
  {
    NoLoss(letters, before, after);
    InitInv(letters);
    RunKeepsInv(Init(letters), before);
  }

  // count is the number of record files whenever no save or removal is half done.
  lemma CountExact(letters: map<string, Record>, acts: seq<Act>)
    requires LegalRun(Init(letters), acts)
    requires var s := Run(Init(letters), acts); RenamedCalls(s) == {} && !s.pass.Uncounted?
    ensures Run(Init(letters), acts).count == |Run(Init(letters), acts).letters|
  {
    InitInv(letters);
    RunKeepsInv(Init(letters), acts);
    var s := Run(Init(letters), acts);
    assert |s.letters| == |s.letters.Keys|;
  }

  // --- Temporary files

  predicate Stages(s: Sys, id: nat, tmp: nat) { id in s.calls && s.calls[id].stage == Staged(tmp) }

  // Each temporary file belongs to one save under way, or a crash left it.
  ghost predicate TempsOk(s: Sys) {
    && s.orphans <= s.temps
    && (forall id, t :: Stages(s, id, t) ==> t in s.temps && t !in s.orphans)
    && (forall id, other, t :: Stages(s, id, t) && Stages(s, other, t) ==> id == other)
    && (forall t :: t in s.temps && t !in s.orphans ==> exists id :: Stages(s, id, t))
  }

  // A step that neither starts nor ends the staging of any call.
  lemma SameStagesTempsOk(s: Sys, t: Sys)
    requires TempsOk(s) && t.temps == s.temps && t.orphans == s.orphans
    requires forall id, x :: Stages(s, id, x) <==> Stages(t, id, x)
    ensures TempsOk(t)
  {
  }

  lemma StageTempsOk(s: Sys, id: nat, tmp: nat)
    requires TempsOk(s) && Legal(s, WriteTemp(id, tmp))
    ensures TempsOk(Step(s, WriteTemp(id, tmp)))
  {
    var t := Step(s, WriteTemp(id, tmp));
    assert Stages(t, id, tmp);
    forall i, x | i != id ensures Stages(s, i, x) <==> Stages(t, i, x) { }
  }

  lemma UnstageTempsOk(s: Sys, t: Sys, id: nat, tmp: nat)
    requires TempsOk(s) && Stages(s, id, tmp) && t.temps == s.temps - {tmp} && t.orphans == s.orphans
    requires id in t.calls && !t.calls[id].stage.Staged?
    requires forall i, x :: i != id ==> (Stages(s, i, x) <==> Stages(t, i, x))
    ensures TempsOk(t)
  {
  }

  lemma StepKeepsTemps(s: Sys, a: Act)
    requires TempsOk(s) && Legal(s, a)
    ensures TempsOk(Step(s, a))
  {
    var t := Step(s, a);
    match a
    case WriteTemp(id, tmp) => StageTempsOk(s, id, tmp);
    case SaveFails(id) =>
      if s.calls[id].stage.Staged? {
        UnstageTempsOk(s, t, id, s.calls[id].stage.tmp);
      } else {
        SameStagesTempsOk(s, t);
      }
    case Rename(id, _, _) => UnstageTempsOk(s, t, id, s.calls[id].stage.tmp);
    case Crash => assert forall id, x :: !Stages(t, id, x);
    case _ => SameStagesTempsOk(s, t);
  }

  lemma {:induction false} RunKeepsTemps(s: Sys, acts: seq<Act>)
    requires TempsOk(s) && LegalRun(s, acts)
    ensures TempsOk(Run(s, acts))
    decreases |acts|
  {
    if acts != [] {
      StepKeepsTemps(s, acts[0]);
      RunKeepsTemps(Step(s, acts[0]), acts[1..]);
    }
  }

  // A temporary file outlives its save only in a crash.
  lemma NoTempLeftBehind(letters: map<string, Record>, acts: seq<Act>)
    requires LegalRun(Init(letters), acts)
    requires forall id, t :: !Stages(Run(Init(letters), acts), id, t)
    ensures Run(Init(letters), acts).temps == Run(Init(letters), acts).orphans
  {
    RunKeepsTemps(Init(letters), acts);
  }
}
