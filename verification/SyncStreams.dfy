/**
 Several upload streams at once. Each has a context of its own; the disk and the token counter are shared. Until
 the counter wraps around, no stream puts data into the staging file of another, and no destination is torn under the
 same condition as for one stream.
 */
module SyncStreams {
  import opened SyncDisk
  import opened SyncNames
  import opened Sync
  import opened SyncSafety
  import opened SyncTorn

  /** One context per stream; of `shared` only what the streams have in common matters. */
  datatype Pool = Pool(contexts: seq<State>, shared: State)

  datatype PoolEvent = PoolEvent(stream: nat, event: Event)

  /** A context together with what is shared. */
  function Join(c: State, x: State): State {
    c.(issued := x.issued, disk := x.disk, ops := x.ops, writes := x.writes, sends := x.sends, sent := x.sent,
       installed := x.installed, held := x.held, trace := x.trace)
  }

  function PoolAct(e: Env, p: Pool, event: PoolEvent): Pool {
    if event.stream >= |p.contexts| then p
    else
      var t := Act(e, Join(p.contexts[event.stream], p.shared), event.event);
      Pool(p.contexts[event.stream := t], t)
  }

  function PoolRun(e: Env, p: Pool, events: seq<PoolEvent>): Pool {
    if events == [] then p else PoolAct(e, PoolRun(e, p, events[..|events| - 1]), events[|events| - 1])
  }

  /** No upload ends with this event at a folder that has destinations below it. */
  ghost predicate PoolActSpares(e: Env, p: Pool, event: PoolEvent) {
    event.stream < |p.contexts| ==> ActSpares(e, Join(p.contexts[event.stream], p.shared), event.event)
  }

  ghost predicate PoolSpares(e: Env, p: Pool, events: seq<PoolEvent>) {
    events == [] ||
    var k := |events| - 1;
    PoolSpares(e, p, events[..k]) && PoolActSpares(e, PoolRun(e, p, events[..k]), events[k])
  }

  predicate Busy(p: Pool, i: nat)
    requires i < |p.contexts|
  {
    InUpload(p.contexts[i].phase)
  }

  function Bare(start: Disk, whole: bool): Frame { Frame(start, {}, map[], 0, whole) }

  /** Each stream keeps its invariant, uploads have tokens of their own, and the shared disk is kept. */
  ghost predicate PoolGood(e: Env, start: Disk, whole: bool, p: Pool) {
    && Safe(Bare(start, whole), p.shared)
    && (forall i :: 0 <= i < |p.contexts| ==> Inv(e, Join(p.contexts[i], p.shared)))
    && (forall i, j :: 0 <= i < j < |p.contexts| && Busy(p, i) && Busy(p, j) ==>
          p.contexts[i].ordinal != p.contexts[j].ordinal)
  }

  /** The staging names of the other uploads. */
  function Others(p: Pool, i: nat): set<string> {
    set j | 0 <= j < |p.contexts| && j != i && Busy(p, j) :: p.contexts[j].temporary
  }

  function FrameOf(start: Disk, whole: bool, p: Pool, i: nat): Frame {
    Frame(start, Others(p, i), p.shared.disk, p.shared.issued, whole)
  }

  lemma OtherName(e: Env, start: Disk, whole: bool, p: Pool, i: nat, j: nat)
    requires PoolGood(e, start, whole, p) && i < |p.contexts| && j < |p.contexts| && j != i && Busy(p, j)
    ensures ForeignName(p.contexts[j].temporary, p.shared.issued, Busy(p, i), p.contexts[i].ordinal)
  {
    hide Safe;
    hide Counted;
    hide Temporary;
    hide Backup;
    hide Token;
    hide Allowed;
    hide IsSideName;
    var s := Join(p.contexts[j], p.shared);
    assert Inv(e, s);
    NamedFacts(e, s);
    assert s.temporary == Temporary(s.path, Token(s.ordinal));
  }

  /** What is shared is safe for a stream, whatever it must leave alone. */
  lemma JoinSafe(start: Disk, whole: bool, c: State, x: State, names: set<string>)
    requires Safe(Bare(start, whole), x)
    ensures Safe(Frame(start, names, x.disk, x.issued, whole), Join(c, x))
  {
    hide AllWhole;
    hide RootOnly;
  }

  lemma JoinGood(e: Env, start: Disk, whole: bool, p: Pool, i: nat)
    requires PoolGood(e, start, whole, p) && i < |p.contexts|
    ensures Good(e, FrameOf(start, whole, p, i), Join(p.contexts[i], p.shared))
  {
    hide Safe;
    hide Inv;
    hide ForeignName;
    var f := FrameOf(start, whole, p, i);
    JoinSafe(start, whole, p.contexts[i], p.shared, Others(p, i));
    forall d | d in f.names
      ensures ForeignName(d, p.shared.issued, Busy(p, i), p.contexts[i].ordinal)
    {
      var j :| 0 <= j < |p.contexts| && j != i && Busy(p, j) && d == p.contexts[j].temporary;
      OtherName(e, start, whole, p, i, j);
    }
  }

  lemma SharedSafe(f: Frame, t: State)
    requires Safe(f, t)
    ensures Safe(Bare(f.start, f.whole), t) && f.floor <= t.issued
  {
    hide AllWhole;
    hide RootOnly;
  }

  /** A foreign staging name determines its token until the counter wraps around. */
  lemma ForeignToken(path: string, n: nat, issued: nat, busy: bool, ordinal: nat)
    requires n < 0x1_0000_0000 && issued < 0x1_0000_0000
    requires ForeignName(Temporary(path, Token(n)), issued, busy, ordinal)
    ensures n <= issued && !(busy && n == ordinal)
  {
    hide Temporary;
    hide Backup;
    hide Token;
    var q: string, k: nat :| Temporary(path, Token(n)) == Temporary(q, Token(k)) && k <= issued
                             && !(busy && k == ordinal);
    SideNamesDiffer(path, q, Token(n), Token(k));
    if n != k {
      TokensDiffer(n, k);
    }
  }

  /** A stream whose staging file was left alone, or is gone, keeps its invariant. */
  lemma OtherKeeps(e: Env, c: State, x: State, y: State)
    requires Inv(e, Join(c, x)) && x.issued <= y.issued && (InUpload(c.phase) ==> AtMostAt(x.disk, y.disk, c.temporary))
    ensures Inv(e, Join(c, y))
  {
    hide Temporary;
    hide Backup;
    hide Token;
    hide Allowed;
  }

  /** What a step of stream `i` leaves of stream `j`. */
  lemma OtherSpared(e: Env, start: Disk, whole: bool, p: Pool, i: nat, j: nat, t: State)
    requires PoolGood(e, start, whole, p) && i < |p.contexts| && j < |p.contexts| && j != i
    requires Good(e, FrameOf(start, whole, p, i), t) && t.issued < 0x1_0000_0000
    ensures Inv(e, Join(p.contexts[j], t))
    ensures Busy(p, j) && InUpload(t.phase) ==> t.ordinal != p.contexts[j].ordinal
  {
    hide Kept;
    hide Inv;
    var f := FrameOf(start, whole, p, i);
    SharedSafe(f, t);
    var c := p.contexts[j];
    assert Inv(e, Join(c, p.shared));
    if Busy(p, j) {
      assert c.temporary in f.names;
      assert AtMostAt(p.shared.disk, t.disk, c.temporary);
      BusyName(e, c, p.shared);
      ForeignToken(c.path, c.ordinal, t.issued, InUpload(t.phase), t.ordinal);
    }
    OtherKeeps(e, c, p.shared, t);
  }

  lemma BusyName(e: Env, c: State, x: State)
    requires Inv(e, Join(c, x)) && InUpload(c.phase)
    ensures c.temporary == Temporary(c.path, Token(c.ordinal)) && c.ordinal <= x.issued
  {
    hide Counted;
    hide Temporary;
    hide Backup;
    hide Token;
    hide Allowed;
  }

  lemma StepOfOne(e: Env, start: Disk, whole: bool, p: Pool, event: PoolEvent)
    requires PoolGood(e, start, whole, p) && event.stream < |p.contexts| && (whole ==> PoolActSpares(e, p, event))
    ensures var q := PoolAct(e, p, event);
            && p.shared.issued <= q.shared.issued && Good(e, FrameOf(start, whole, p, event.stream), q.shared)
            && q == Pool(p.contexts[event.stream := q.shared], q.shared)
  {
    hide PoolGood;
    hide Good;
    hide Act;
    hide ActSpares;
    JoinGood(e, start, whole, p, event.stream);
    var f := FrameOf(start, whole, p, event.stream);
    ActKeeps(e, f, Join(p.contexts[event.stream], p.shared), event.event);
    FloorHolds(e, f, PoolAct(e, p, event).shared);
  }

  lemma FloorHolds(e: Env, f: Frame, t: State)
    requires Good(e, f, t)
    ensures f.floor <= t.issued
  {
    hide Kept;
  }

  lemma PoolStepKeeps(e: Env, start: Disk, whole: bool, p: Pool, event: PoolEvent)
    requires PoolGood(e, start, whole, p) && PoolAct(e, p, event).shared.issued < 0x1_0000_0000
    requires whole ==> PoolActSpares(e, p, event)
    ensures PoolGood(e, start, whole, PoolAct(e, p, event))
  {
    hide Safe;
    hide Inv;
    hide Act;
    hide Outside;
    hide PoolActSpares;
    if event.stream < |p.contexts| {
      StepOfOne(e, start, whole, p, event);
      var q := PoolAct(e, p, event);
      var i, t := event.stream, q.shared;
      SharedSafe(FrameOf(start, whole, p, i), t);
      JoinSelf(t);
      forall j | 0 <= j < |p.contexts| && j != i
        ensures Inv(e, Join(q.contexts[j], q.shared))
        ensures Busy(q, j) && Busy(q, i) ==> q.contexts[j].ordinal != q.contexts[i].ordinal
      {
        OtherSpared(e, start, whole, p, i, j, t);
      }
    }
  }

  lemma JoinSelf(t: State)
    ensures Join(t, t) == t
  {
  }

  // ---------- whole runs ----------

  lemma PoolOnward(e: Env, p: Pool, event: PoolEvent)
    ensures Onward(p.shared, PoolAct(e, p, event).shared)
  {
    hide Act;
    if event.stream < |p.contexts| {
      ActOnward(e, Join(p.contexts[event.stream], p.shared), event.event);
    }
  }

  lemma {:induction false} PoolRunKeeps(e: Env, start: Disk, whole: bool, p: Pool, events: seq<PoolEvent>)
    requires PoolGood(e, start, whole, p) && PoolRun(e, p, events).shared.issued < 0x1_0000_0000
    requires whole ==> PoolSpares(e, p, events)
    ensures PoolGood(e, start, whole, PoolRun(e, p, events))
  {
    hide PoolGood;
    hide PoolAct;
    hide PoolActSpares;
    if events != [] {
      var k := |events| - 1;
      PoolOnward(e, PoolRun(e, p, events[..k]), events[k]);
      PoolRunKeeps(e, start, whole, p, events[..k]);
      PoolStepKeeps(e, start, whole, PoolRun(e, p, events[..k]), events[k]);
    }
  }

  lemma PoolActShows(e: Env, start: Disk, p: Pool, event: PoolEvent)
    requires PoolGood(e, start, true, p) && !PoolActSpares(e, p, event)
    ensures !NoneTorn(PoolAct(e, p, event).shared)
  {
    hide PoolGood;
    hide Good;
    hide Act;
    hide ActSpares;
    hide NoneTorn;
    JoinGood(e, start, true, p, event.stream);
    ActShows(e, FrameOf(start, true, p, event.stream), Join(p.contexts[event.stream], p.shared), event.event);
  }

  lemma {:induction false} PoolShows(e: Env, start: Disk, p: Pool, events: seq<PoolEvent>)
    requires PoolGood(e, start, true, p) && PoolRun(e, p, events).shared.issued < 0x1_0000_0000
    requires !PoolSpares(e, p, events)
    ensures !NoneTorn(PoolRun(e, p, events).shared)
  {
    hide PoolGood;
    hide PoolAct;
    hide PoolActSpares;
    hide NoneTorn;
    var k := |events| - 1;
    var q := PoolRun(e, p, events[..k]);
    PoolOnward(e, q, events[k]);
    if !PoolSpares(e, p, events[..k]) {
      PoolShows(e, start, p, events[..k]);
      TornStays(q.shared, PoolAct(e, q, events[k]).shared);
    } else {
      PoolRunKeeps(e, start, true, p, events[..k]);
      PoolActShows(e, start, q, events[k]);
    }
  }

  /** No stream has begun anything yet. */
  ghost predicate AllFresh(p: Pool) {
    && p.shared == Fresh(p.shared) && p.shared.held == p.shared.disk && p.shared.installed == []
    && p.shared.trace == [] && p.shared.sent == []
    && forall i :: 0 <= i < |p.contexts| ==> p.contexts[i] == Fresh(p.contexts[i])
  }

  lemma StartIsGood(e: Env, p: Pool, whole: bool)
    requires AllFresh(p)
    ensures PoolGood(e, p.shared.disk, whole, p)
  {
    hide AllWhole;
    hide RootOnly;
    hide Named;
    StartIsWhole(p.shared.disk);
  }

  /**
   Streams working side by side, their packets and closings in any order and any operation failing: as long as
   fewer than 2^32 tokens have been issued, every disk so far had all destinations whole if and only if no upload
   ended while a folder with destinations below it was found and moved away at its destination. In any case every
   OKAY stands for an installed upload, nothing outside the storage root changes, and each unfinished upload has
   exactly its own data in its staging file.
   */
  lemma NeverTornTogether(e: Env, p: Pool, events: seq<PoolEvent>)
    requires AllFresh(p) && PoolRun(e, p, events).shared.issued < 0x1_0000_0000
    ensures var q := PoolRun(e, p, events); var x := q.shared;
            && (NoneTorn(x) && AllWhole(x.held, x.disk) <==> PoolSpares(e, p, events))
            && RootOnly(p.shared.disk, x.disk)
            && (forall k :: 0 <= k < |x.trace| ==> RootOnly(p.shared.disk, x.trace[k].disk))
            && x.held == Replay(p.shared.disk, x.installed) && Okays(x.sent) <= |x.installed|
            && (forall i :: 0 <= i < |q.contexts| && Busy(q, i) && q.contexts[i].temporary in x.disk ==>
                  x.disk[q.contexts[i].temporary] == File(q.contexts[i].received))
  {
    hide AllWhole;
    hide RootOnly;
    hide Named;
    hide PoolRun;
    hide PoolSpares;
    StartIsGood(e, p, false);
    StartIsGood(e, p, true);
    PoolRunKeeps(e, p.shared.disk, false, p, events);
    var q := PoolRun(e, p, events);
    if PoolSpares(e, p, events) {
      PoolRunKeeps(e, p.shared.disk, true, p, events);
    } else {
      PoolShows(e, p.shared.disk, p, events);
    }
    forall i | 0 <= i < |q.contexts| && Busy(q, i)
      ensures Staged(e, Join(q.contexts[i], q.shared))
    {
      assert Inv(e, Join(q.contexts[i], q.shared));
    }
  }
}
