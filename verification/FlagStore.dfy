/** The file-backed feature-flag store, featureflags/file_store.go: a snapshot
    reread when the file's modification time has moved past the one last loaded.

    A reload is a stat followed by a read, and the file may be rewritten between
    the two.  Decoding is a function given from outside.  Time 0 is Go's zero time.
 */
module FlagStore {
  import opened Options
  import opened Text

  datatype Flag = Flag(key: string, enabled: bool, rolloutPercent: int)

  // The flags of a decoded file, nil entries included.
  type Snapshot = seq<Option<Flag>>

  type Decoder = string -> Option<Snapshot>

  // ---------------------------------------------------------------------------
  // The index by trimmed key

  predicate Names(f: Option<Flag>, k: string) { f.Some? && k != "" && TrimSpace(f.value.key) == k }

  function Index(flags: Snapshot): map<string, Flag> {
    if flags == [] then map[]
    else
      var m, f := Index(flags[..|flags| - 1]), flags[|flags| - 1];
      if f.None? || TrimSpace(f.value.key) == "" then m else m[TrimSpace(f.value.key) := f.value]
  }

  // The last entry that names a key, -1 for none.
  function LastNaming(flags: Snapshot, k: string): (i: int)
    ensures -1 <= i < |flags|
    ensures i >= 0 ==> Names(flags[i], k)
    ensures forall j :: i < j < |flags| ==> !Names(flags[j], k)
  {
    if flags == [] then -1
    else if Names(flags[|flags| - 1], k) then |flags| - 1
    else
      var rest := flags[..|flags| - 1];
      assert forall j :: 0 <= j < |rest| ==> flags[j] == rest[j];
      LastNaming(rest, k)
  }

  // The index knows exactly the keys some entry names, each with the last such entry.
  lemma {:induction false} LastEntryWins(flags: Snapshot, k: string)
    ensures k in Index(flags) <==> LastNaming(flags, k) >= 0
    ensures k in Index(flags) ==> Index(flags)[k] == flags[LastNaming(flags, k)].value
  {
    if flags != [] {
      LastEntryWins(flags[..|flags| - 1], k);
    }
  }

  // ---------------------------------------------------------------------------
  // The store

  datatype Store = Store(flags: map<string, Flag>, lastChecked: int, lastModTime: int, snapshot: Option<Snapshot>)

  function Empty(): Store { Store(map[], 0, 0, None) }

  // Skip the read: the file is no newer than what is held.
  predicate Skips(st: Store, modTime: int) { st.lastModTime != 0 && modTime <= st.lastModTime }

  // The read half of a reload, for a stat that reported modTime.
  function Loaded(decode: Decoder, st: Store, modTime: int, contents: Option<string>): Store {
    if contents.None? || decode(contents.value).None? then st
    else
      var snapshot := decode(contents.value).value;
      st.(flags := Index(snapshot), lastModTime := modTime, snapshot := Some(snapshot))
  }

  function Reloaded(decode: Decoder, st: Store, stat: Option<int>, contents: Option<string>): Store {
    if stat.None? || Skips(st, stat.value) then st else Loaded(decode, st, stat.value, contents)
  }

  predicate Due(st: Store, now: int, pollInterval: int) {
    st.lastChecked == 0 || now - st.lastChecked >= pollInterval
  }

  class FileStore {
    const pollInterval: int
    const decode: Decoder
    var flags: map<string, Flag>
    var lastChecked: int
    var lastModTime: int
    var snapshot: Option<Snapshot>

    ghost function View(): Store
      reads this
    {
      Store(flags, lastChecked, lastModTime, snapshot)
    }

    // The default poll interval is 5 seconds.
    constructor (interval: int, decoder: Decoder)
      ensures pollInterval == (if interval <= 0 then 5_000_000_000 else interval) && decode == decoder
      ensures View() == Empty()
    {
      pollInterval := if interval <= 0 then 5_000_000_000 else interval;
      decode := decoder;
      flags, lastChecked, lastModTime, snapshot := map[], 0, 0, None;
    }

    method Reload(stat: Option<int>, contents: Option<string>) returns (ok: bool)
      modifies this
      ensures View() == Reloaded(decode, old(View()), stat, contents)
      ensures ok <==>
        && stat.Some?
        && ((old(lastModTime) != 0 && stat.value <= old(lastModTime)) || (contents.Some? && decode(contents.value).Some?))
      ensures !ok || (old(lastModTime) != 0 && stat.value <= old(lastModTime)) ==> View() == old(View())
      ensures ok && !(old(lastModTime) != 0 && stat.value <= old(lastModTime)) ==>
        snapshot == decode(contents.value) && lastModTime == stat.value
      ensures lastChecked == old(lastChecked)
    {
      if stat.None? {
        return false;
      }
      if lastModTime != 0 && stat.value <= lastModTime {
        return true;
      }
      if contents.None? {
        return false;
      }
      var decoded := decode(contents.value);
      if decoded.None? {
        return false;
      }
      var loaded := decoded.value;
      var index: map<string, Flag> := map[];
      for i := 0 to |loaded|
        invariant index == Index(loaded[..i])
      {
        assert loaded[..i + 1][..i] == loaded[..i];
        if loaded[i].None? {
          continue;
        }
        var key := TrimSpace(loaded[i].value.key);
        if key == "" {
          continue;
        }
        index := index[key := loaded[i].value];
      }
      assert loaded[..|loaded|] == loaded;
      flags := index;
      lastModTime := stat.value;
      snapshot := Some(loaded);
      return true;
    }

    method RefreshIfNeeded(now: int, stat: Option<int>, contents: Option<string>)
      modifies this
      ensures View() == if Due(old(View()), now, pollInterval)
                        then Reloaded(decode, old(View()).(lastChecked := now), stat, contents) else old(View())
      ensures if old(lastChecked) != 0 && now - old(lastChecked) < pollInterval then View() == old(View())
              else lastChecked == now
    {
      if lastChecked != 0 && now - lastChecked < pollInterval {
        return;
      }
      lastChecked := now;
      var ok := Reload(stat, contents);
    }

    method Lookup(key: string, now: int, stat: Option<int>, contents: Option<string>) returns (flag: Option<Flag>)
      modifies this
      ensures View() == if Due(old(View()), now, pollInterval)
                        then Reloaded(decode, old(View()).(lastChecked := now), stat, contents) else old(View())
      ensures flag == if TrimSpace(key) in flags then Some(flags[TrimSpace(key)]) else None
    {
      RefreshIfNeeded(now, stat, contents);
      var k := TrimSpace(key);
      if k in flags {
        return Some(flags[k]);
      }
      return None;
    }
  }

  // ---------------------------------------------------------------------------
  // Reloads against a file that is being rewritten

  datatype Version = Version(modTime: int, content: string)

  datatype Sys = Sys(
    versions: seq<Version>,      // everything the file ever was; the last is current
    store: Store,
    reload: Option<int>,         // a reload past its stat, and what the stat said
    held: int)                   // which version the snapshot is, -1 for none

  datatype Act =
    | Rewrite(modTime: int, content: string)
    | Stat(ok: bool)
    | Read(ok: bool)

  predicate Legal(s: Sys, a: Act)
    requires s.versions != []
  {
    match a
    case Rewrite(m, _) => m > s.versions[|s.versions| - 1].modTime
    case Stat(_) => s.reload.None?
    case Read(_) => s.reload.Some?
  }

  function Current(s: Sys): Version
    requires s.versions != []
  {
    s.versions[|s.versions| - 1]
  }

  function Step(decode: Decoder, s: Sys, a: Act): Sys
    requires s.versions != [] && Legal(s, a)
  {
    match a
    case Rewrite(m, c) => s.(versions := s.versions + [Version(m, c)])
    case Stat(ok) => if ok && !Skips(s.store, Current(s).modTime) then s.(reload := Some(Current(s).modTime)) else s
    case Read(ok) =>
      var contents := if ok then Some(Current(s).content) else None;
      s.(reload := None, store := Loaded(decode, s.store, s.reload.value, contents),
         held := if ok && decode(Current(s).content).Some? then |s.versions| - 1 else s.held)
  }

  // The snapshot is some version of the file, at least as new as lastModTime
  // says, and the flags are its index.
  ghost predicate Inv(decode: Decoder, s: Sys) {
    && s.versions != [] && -1 <= s.held < |s.versions|
    && (forall i, j :: 0 <= i < j < |s.versions| ==> s.versions[i].modTime < s.versions[j].modTime)
    && (s.reload.Some? ==> s.reload.value <= Current(s).modTime)
    && (s.held < 0 ==> s.store.snapshot.None? && s.store.flags == map[] && s.store.lastModTime == 0)
    && (s.held >= 0 ==>
          && s.store.snapshot.Some? && s.store.snapshot == decode(s.versions[s.held].content)
          && s.store.flags == Index(s.store.snapshot.value)
          && s.store.lastModTime <= s.versions[s.held].modTime)
  }

  lemma StepKeepsInv(decode: Decoder, s: Sys, a: Act)
    requires Inv(decode, s) && Legal(s, a)
    ensures Inv(decode, Step(decode, s, a))
  {
  }

  ghost predicate LegalRun(decode: Decoder, s: Sys, acts: seq<Act>)
    requires s.versions != []
    decreases |acts|
  {
    acts == [] || (Legal(s, acts[0]) && LegalRun(decode, Step(decode, s, acts[0]), acts[1..]))
  }

  ghost function Run(decode: Decoder, s: Sys, acts: seq<Act>): Sys
    requires s.versions != [] && LegalRun(decode, s, acts)
    decreases |acts|
  {
    if acts == [] then s else Run(decode, Step(decode, s, acts[0]), acts[1..])
  }

  lemma {:induction false} RunKeepsInv(decode: Decoder, s: Sys, acts: seq<Act>)
    requires Inv(decode, s) && LegalRun(decode, s, acts)
    ensures Inv(decode, Run(decode, s, acts))
    decreases |acts|
  {
    if acts != [] {
      StepKeepsInv(decode, s, acts[0]);
      RunKeepsInv(decode, Step(decode, s, acts[0]), acts[1..]);
    }
  }

  function Start(first: Version): Sys { Sys([first], Empty(), None, -1) }

  // In every interleaving of rewrites with reloads run one at a time: a reload
  // that skips the read holds the file's current content, and the flags are
  // always the last-entry-wins index of the snapshot held.
  lemma NoMissedUpdate(decode: Decoder, first: Version, acts: seq<Act>)
    requires LegalRun(decode, Start(first), acts)
    ensures var s := Run(decode, Start(first), acts);
      && s.versions != []
      && (Skips(s.store, Current(s).modTime) ==> s.held == |s.versions| - 1 && s.store.snapshot == decode(Current(s).content))
      && s.store.flags == if s.store.snapshot.None? then map[] else Index(s.store.snapshot.value)
  {
    RunKeepsInv(decode, Start(first), acts);
    var s := Run(decode, Start(first), acts);
    var n := |s.versions| - 1;
    assert 0 <= s.held < n ==> s.versions[s.held].modTime < s.versions[n].modTime;
  }

  // A reload that completes, with whatever rewrites meanwhile, ends with a
  // version at least as new as the one current when it began.
  lemma ReloadCatchesUp(decode: Decoder, s: Sys, writes: seq<Act>)
    requires Inv(decode, s) && s.reload.None?
    requires forall i :: 0 <= i < |writes| ==> writes[i].Rewrite?
    requires LegalRun(decode, Step(decode, s, Stat(true)), writes)
    ensures var t := Run(decode, Step(decode, s, Stat(true)), writes);
      && t.versions != []
      && if Skips(s.store, Current(s).modTime) then t.held == |s.versions| - 1
         else && Legal(t, Read(true))
              && (decode(Current(t).content).Some? ==>
                    Step(decode, t, Read(true)).held == |t.versions| - 1 >= |s.versions| - 1)
  {
    StepKeepsInv(decode, s, Stat(true));
    var s1 := Step(decode, s, Stat(true));
    RunKeepsInv(decode, s1, writes);
    WritesOnly(decode, s1, writes);
    var n := |s.versions| - 1;
    assert 0 <= s.held < n ==> s.versions[s.held].modTime < s.versions[n].modTime;
  }

  lemma {:induction false} WritesOnly(decode: Decoder, s: Sys, writes: seq<Act>)
    requires s.versions != [] && LegalRun(decode, s, writes)
    requires forall i :: 0 <= i < |writes| ==> writes[i].Rewrite?
    ensures var t := Run(decode, s, writes);
      t.store == s.store && t.reload == s.reload && t.held == s.held && |t.versions| >= |s.versions|
    decreases |writes|
  {
    if writes != [] {
      assert writes[0].Rewrite?;
      WritesOnly(decode, Step(decode, s, writes[0]), writes[1..]);
    }
  }

  // ---------------------------------------------------------------------------
  // How stale a lookup can be

  // Rewrites and whole lookups in turn, each at a clock reading.
  datatype Turn = WriteAt(at: int, modTime: int, content: string) | LookupAt(at: int)

  datatype Stamped = Stamped(sys: Sys, writtenAt: seq<int>)

  // A lookup with a refresh that does not fail.
  function Refreshed(decode: Decoder, s: Sys, now: int, poll: int): Sys
    requires s.versions != []
  {
    if !Due(s.store, now, poll) then s
    else
      var skips := Skips(s.store, Current(s).modTime);
      s.(store := Reloaded(decode, s.store.(lastChecked := now), Some(Current(s).modTime), Some(Current(s).content)),
         held := if !skips && decode(Current(s).content).Some? then |s.versions| - 1 else s.held)
  }

  function Took(decode: Decoder, x: Stamped, t: Turn, poll: int): Stamped
    requires x.sys.versions != []
  {
    match t
    case WriteAt(at, m, c) => Stamped(x.sys.(versions := x.sys.versions + [Version(m, c)]), x.writtenAt + [at])
    case LookupAt(at) => x.(sys := Refreshed(decode, x.sys, at, poll))
  }

  predicate LegalTurn(decode: Decoder, x: Stamped, t: Turn, now: int)
    requires x.sys.versions != []
  {
    now <= t.at && 0 < t.at && (t.WriteAt? ==> t.modTime > Current(x.sys).modTime && decode(t.content).Some?)
  }

  ghost predicate LegalTurns(decode: Decoder, x: Stamped, ts: seq<Turn>, poll: int, now: int)
    requires x.sys.versions != []
    decreases |ts|
  {
    ts == [] ||
    (LegalTurn(decode, x, ts[0], now) && LegalTurns(decode, Took(decode, x, ts[0], poll), ts[1..], poll, ts[0].at))
  }

  ghost function TakeAll(decode: Decoder, x: Stamped, ts: seq<Turn>, poll: int): Stamped
    requires x.sys.versions != []
    decreases |ts|
  {
    if ts == [] then x else TakeAll(decode, Took(decode, x, ts[0], poll), ts[1..], poll)
  }

  // Everything written before the last check is held.
  ghost predicate Caught(decode: Decoder, x: Stamped, now: int) {
    && Inv(decode, x.sys) && |x.writtenAt| == |x.sys.versions|
    && (forall i :: 0 <= i < |x.sys.versions| ==> decode(x.sys.versions[i].content).Some?)
    && x.sys.store.lastChecked <= now
    && (x.sys.store.lastChecked != 0 ==>
          forall i :: 0 <= i < |x.writtenAt| && x.writtenAt[i] < x.sys.store.lastChecked ==> i <= x.sys.held)
  }

  lemma CurrentWhenDue(decode: Decoder, s: Sys, now: int, poll: int)
    requires Inv(decode, s) && Due(s.store, now, poll) && decode(Current(s).content).Some?
    ensures Inv(decode, Refreshed(decode, s, now, poll)) && Refreshed(decode, s, now, poll).held == |s.versions| - 1
  {
    var n := |s.versions| - 1;
    assert 0 <= s.held < n ==> s.versions[s.held].modTime < s.versions[n].modTime;
  }

  lemma TurnKeepsCaught(decode: Decoder, x: Stamped, t: Turn, poll: int, now: int)
    requires Caught(decode, x, now) && LegalTurn(decode, x, t, now)
    ensures Caught(decode, Took(decode, x, t, poll), t.at)
  {
    if t.LookupAt? && Due(x.sys.store, t.at, poll) {
      CurrentWhenDue(decode, x.sys, t.at, poll);
    }
  }

  lemma {:induction false} TurnsKeepCaught(decode: Decoder, x: Stamped, ts: seq<Turn>, poll: int, now: int)
    requires Caught(decode, x, now) && LegalTurns(decode, x, ts, poll, now)
    ensures Caught(decode, TakeAll(decode, x, ts, poll), if ts == [] then now else ts[|ts| - 1].at)
    decreases |ts|
  {
    if ts != [] {
      TurnKeepsCaught(decode, x, ts[0], poll, now);
      TurnsKeepCaught(decode, Took(decode, x, ts[0], poll), ts[1..], poll, ts[0].at);
    }
  }

  // While files decode and refreshes do not fail, a lookup at time t sees every
  // version written up to t - pollInterval, or a later one.
  lemma BoundedStaleness(decode: Decoder, first: Version, at: int, ts: seq<Turn>, poll: int, t: int)
    requires decode(first.content).Some? && poll > 0 && 0 <= at
    requires var x := Stamped(Start(first), [at]);
      && LegalTurns(decode, x, ts, poll, at) && 0 < t && (if ts == [] then at else ts[|ts| - 1].at) <= t
    ensures var x := TakeAll(decode, Stamped(Start(first), [at]), ts, poll);
      && |x.writtenAt| == |x.sys.versions| > 0
      && forall i :: 0 <= i < |x.writtenAt| && x.writtenAt[i] <= t - poll ==> i <= Refreshed(decode, x.sys, t, poll).held
  {
    var x0 := Stamped(Start(first), [at]);
    TurnsKeepCaught(decode, x0, ts, poll, at);
    var x := TakeAll(decode, x0, ts, poll);
    if Due(x.sys.store, t, poll) {
      CurrentWhenDue(decode, x.sys, t, poll);
    }
  }
}
