/**
 The leased lock around every critical section on a stored session (lock.go), as steps of any number
 of processes that share one store. A lock is an entry holding its owner's token; it expires unless
 its owner renews it, so a slow owner may lose it without noticing. Owner tokens are random and taken
 to be unique; the store evicts nothing.
 */
module LeaseLock {
  import opened Basics
  import opened TtlMaps
  import opened Sessions
  import Protocol
  import MemoryStores

  const LEASE: Time := 10 * SECOND

  // ---- the lock's store calls ------------------------------------------------------------------

  function TryAcquire<K, T>(locks: map<K, Entry<T>>, key: K, owner: T, now: Time): (map<K, Entry<T>>, bool) {
    if IsLive(locks, key, now) then (locks, false) else (locks[key := Entry(owner, now + LEASE)], true)
  }

  function Renew<K, T(==)>(locks: map<K, Entry<T>>, key: K, owner: T, now: Time): (map<K, Entry<T>>, bool) {
    if Lookup(locks, key, now) == Some(owner) then (locks[key := Entry(owner, now + LEASE)], true) else (locks, false)
  }

  function Release<K, T(==)>(locks: map<K, Entry<T>>, key: K, owner: T, now: Time): (map<K, Entry<T>>, bool) {
    if Lookup(locks, key, now) == Some(owner) then (locks - {key}, true) else (locks, false)
  }

  /**
   One attempt of `acquireLock`. A refusal changes nothing that can be seen; a success changes nothing but the
   lock, unless the store is full and has to evict.
   */
  method Attempt(store: MemoryStores.MemoryStore, key: string, owner: MemoryStores.Bytes, now: Time) returns (ok: bool)
    requires store.Valid() && store.Check(key, owner) == MemoryStores.Ok
    modifies store
    ensures store.Valid()
    ensures ok == TryAcquire(MemoryStores.Visible(old(store.entries), now), key, owner, now).1
    ensures ok ==> Lookup(store.entries, key, now) == Some(owner)
    ensures ok ==> MemoryStores.LeastLoss(old(store.entries), store.entries, key, now, store.maxEntries)
    ensures !ok || |MemoryStores.Visible(old(store.entries), now)| < store.maxEntries ==>
      MemoryStores.Visible(store.entries, now)
        == TryAcquire(MemoryStores.Visible(old(store.entries), now), key, owner, now).0
  {
    ghost var before := store.entries;
    var status;
    status, ok := store.SetNX(key, owner, LEASE, now);
    if ok && |MemoryStores.Visible(before, now)| < store.maxEntries {
      MemoryStores.NoLossBelowCapacity(before, store.entries, key, Entry(owner, now + LEASE), now, store.maxEntries);
    }
  }

  /** One turn of the renewal loop; it stops at the first refusal. */
  method RenewOnce(store: MemoryStores.MemoryStore, key: string, owner: MemoryStores.Bytes, now: Time)
    returns (ok: bool)
    requires store.Valid()
    modifies store
    ensures store.Valid()
    ensures (MemoryStores.Visible(store.entries, now), ok)
         == Renew(MemoryStores.Visible(old(store.entries), now), key, owner, now)
  {
    ghost var before := store.entries;
    var status;
    status, ok := store.CompareAndTouch(key, owner, LEASE, now);
    if ok {
      assert MemoryStores.Visible(store.entries, now)
          == MemoryStores.Visible(before, now)[key := Entry(owner, now + LEASE)];
    }
  }

  /** `releaseLock`. */
  method ReleaseOnce(store: MemoryStores.MemoryStore, key: string, owner: MemoryStores.Bytes, now: Time)
    returns (ok: bool)
    requires store.Valid()
    modifies store
    ensures store.Valid()
    ensures (MemoryStores.Visible(store.entries, now), ok)
         == Release(MemoryStores.Visible(old(store.entries), now), key, owner, now)
  {
    ok := store.CompareAndDelete(key, owner, now);
  }

  // ---- processes -------------------------------------------------------------------------------

  datatype Token = Token(serial: nat)

  /** What a section is for. `Amend` stands for every other handler that writes back the session it read. */
  datatype Purpose = ToRevoke | ToRotate | ToAmend

  /** What a process has read, or last written, under the lock; and when. */
  datatype View = Unread | Saw(session: Option<Session>, at: Time)

  /** A process between acquiring a lock and leaving; `leaseEnd` is where its last granted lease ends. */
  datatype Process = Process(id: SessionId, purpose: Purpose, leaseEnd: Time, view: View)

  /** A write to the session `id`; `ends` if it completed a revocation or a rotation. */
  datatype Write = Write(token: Token, id: SessionId, ends: bool)

  datatype Memory = Memory(
    now: Time,
    locks: map<SessionId, Entry<Token>>,
    sessions: map<SessionId, Entry<Session>>,
    processes: map<Token, Process>,
    tokens: set<Token>,
    ids: set<SessionId>,
    log: seq<Write>
  )

  datatype Step =
    | Tick(elapsed: nat)
    | Sweep                                      // the janitor
    | Create(session: Session, ttl: Time)        // under a fresh id, which needs no lock
    | Acquire(t: Token, id: SessionId, purpose: Purpose)
    | Extend(t: Token)
    | Leave(t: Token)
    | Crash(t: Token)                            // leave without releasing
    | Read(t: Token)
    | Store(t: Token, session: Session, ttl: Time)
    | Erase(t: Token)

  datatype Run = Init(at: Time) | Next(before: Run, step: Step)

  /** The process that takes a step, if it has to be in its critical section for that. */
  function Actor(step: Step): Option<Token> {
    if step.Extend? || step.Leave? || step.Crash? || step.Read? || step.Store? || step.Erase? then Some(step.t)
    else None
  }

  function Apply(m: Memory, step: Step): Memory {
    if Actor(step).Some? && Actor(step).value !in m.processes then m
    else match step
    case Tick(elapsed) => m.(now := m.now + elapsed)
    case Sweep => m.(locks := Purge(m.locks, m.now), sessions := Purge(m.sessions, m.now))
    case Create(s, ttl) => m.(sessions := m.sessions[s.id := Entry(s, m.now + ttl)], ids := m.ids + {s.id})
    case Acquire(t, id, purpose) =>
      var (locks, ok) := TryAcquire(m.locks, id, t, m.now);
      var drawn := m.(tokens := m.tokens + {t});
      if ok then drawn.(locks := locks, processes := m.processes[t := Process(id, purpose, m.now + LEASE, Unread)])
      else drawn
    case Extend(t) =>
      var p := m.processes[t];
      var (locks, ok) := Renew(m.locks, p.id, t, m.now);
      m.(locks := locks, processes := m.processes[t := if ok then p.(leaseEnd := m.now + LEASE) else p])
    case Leave(t) => m.(locks := Release(m.locks, m.processes[t].id, t, m.now).0, processes := m.processes - {t})
    case Crash(t) => m.(processes := m.processes - {t})
    case Read(t) =>
      var p := m.processes[t];
      m.(processes := m.processes[t := p.(view := Saw(Lookup(m.sessions, p.id, m.now), m.now))])
    case Store(t, s, ttl) =>
      var p := m.processes[t];
      m.(sessions := m.sessions[p.id := Entry(s, m.now + ttl)],
         processes := m.processes[t := p.(view := Saw(Some(s), m.now))],
         log := m.log + [Write(t, p.id, p.purpose.ToRevoke?)])
    case Erase(t) =>
      var p := m.processes[t];
      m.(sessions := m.sessions - {p.id},
         processes := m.processes[t := p.(view := Saw(None, m.now))],
         log := m.log + [Write(t, p.id, true)])
  }

  /**
   What the code may do next: tokens and ids are drawn once, and a section writes only a session it has
   read and not refused. Nothing here asks whether the lease still runs; the code does not ask either.
   */
  predicate Enabled(cfg: Config, m: Memory, step: Step) {
    && (Actor(step).Some? ==> Actor(step).value in m.processes)
    && (step.Create? ==> step.session.id !in m.ids)
    && (step.Acquire? ==> step.t !in m.tokens)
    && (step.Store? ==> MayStore(m.processes[step.t], step.session, m.now))
    && (step.Erase? ==> MayErase(cfg, m.processes[step.t]))
  }

  predicate MayStore(p: Process, s: Session, now: Time) {
    && p.view.Saw? && p.view.session.Some? && p.view.session.value.state != Revoked
    && !p.purpose.ToRotate?
    && (p.purpose.ToRevoke? ==> s == p.view.session.value.(state := Revoked, expiresAt := None, lastSeenAt := now))
  }

  predicate MayErase(cfg: Config, p: Process) {
    && p.view.Saw? && p.view.session.Some?
    && p.purpose.ToRotate?
    && Protocol.RotationRefused(cfg, p.view.session.value, p.view.at) == None
  }

  function After(run: Run): Memory {
    match run
    case Init(at) => Memory(at, map[], map[], map[], {}, {}, [])
    case Next(before, step) => Apply(After(before), step)
  }

  predicate Possible(cfg: Config, run: Run) {
    run.Next? ==> Possible(cfg, run.before) && Enabled(cfg, After(run.before), run.step)
  }

  /** The process `t` is in its critical section and its last granted lease still runs. */
  predicate InLease(m: Memory, t: Token) {
    t in m.processes && m.now < m.processes[t].leaseEnd
  }

  /** The step writes to the session `id`. */
  predicate Writes(m: Memory, step: Step, id: SessionId) {
    (step.Store? || step.Erase?) && step.t in m.processes && m.processes[step.t].id == id
  }

  /** Every write of the run to the session `id` happened within its writer's lease. */
  predicate Punctual(run: Run, id: SessionId) {
    run.Next? ==>
      && Punctual(run.before, id)
      && (Writes(After(run.before), run.step, id) ==> InLease(After(run.before), run.step.t))
  }

  // ---- leases ----------------------------------------------------------------------------------

  /** A lease that runs is what the store says: its owner's token, until exactly its end. */
  ghost predicate LeaseOK(m: Memory, t: Token)
    requires t in m.processes
  {
    var p := m.processes[t];
    && (m.now < p.leaseEnd ==> p.id in m.locks && m.locks[p.id].value == t)
    && (p.id in m.locks && m.locks[p.id].value == t ==> m.locks[p.id].expiresAt == p.leaseEnd)
  }

  ghost predicate LeasesOK(m: Memory) {
    && m.processes.Keys <= m.tokens
    && forall t | t in m.processes :: LeaseOK(m, t)
  }

  /** A lease that has lapsed, or was never granted, is not revived by any step: a new one takes a new token. */
  lemma LapsedForGood(cfg: Config, m: Memory, step: Step, t: Token)
    requires LeasesOK(m) && Enabled(cfg, m, step) && t in m.tokens && InLease(Apply(m, step), t)
    ensures InLease(m, t) && Apply(m, step).processes[t].id == m.processes[t].id
  {
    assert LeaseOK(m, t);
  }

  /** No step but the owner's own takes away a running lease, shortens or extends it, or touches its lock. */
  lemma OthersCannotTouch(cfg: Config, m: Memory, step: Step, t: Token)
    requires LeasesOK(m) && Enabled(cfg, m, step) && t in m.tokens && Actor(step) != Some(t)
    ensures t in Apply(m, step).processes <==> t in m.processes
    ensures t in m.processes ==> Apply(m, step).processes[t] == m.processes[t]
    ensures InLease(m, t) ==>
      && IsLive(Apply(m, step).locks, m.processes[t].id, m.now)
      && Apply(m, step).locks[m.processes[t].id] == m.locks[m.processes[t].id]
  {
    if Actor(step).Some? && InLease(m, t) {
      var u := Actor(step).value;
      assert LeaseOK(m, t);
    }
  }

  lemma StepKeepsLeases(cfg: Config, m: Memory, step: Step)
    requires LeasesOK(m) && Enabled(cfg, m, step)
    ensures LeasesOK(Apply(m, step))
  {
    var after := Apply(m, step);
    forall t | t in after.processes ensures LeaseOK(after, t) {
      if t in m.tokens && Actor(step) != Some(t) {
        OthersCannotTouch(cfg, m, step, t);
        assert LeaseOK(m, t);
      } else if t in m.processes {
        assert LeaseOK(m, t);
      }
    }
  }

  lemma {:induction false} RunsKeepLeases(cfg: Config, run: Run)
    requires Possible(cfg, run)
    ensures LeasesOK(After(run))
  {
    if run.Next? {
      RunsKeepLeases(cfg, run.before);
      StepKeepsLeases(cfg, After(run.before), run.step);
    }
  }

  /** Mutual exclusion, in every interleaving: one process at most is in a session's section with a running lease. */
  lemma LeasesExclude(cfg: Config, run: Run, t: Token, u: Token)
    requires Possible(cfg, run) && InLease(After(run), t) && InLease(After(run), u)
    requires After(run).processes[t].id == After(run).processes[u].id
    ensures t == u
  {
    RunsKeepLeases(cfg, run);
    assert LeaseOK(After(run), t) && LeaseOK(After(run), u);
  }

  /** An extension within the lease succeeds and adds a whole lease; a later one fails and leaves the lock to others. */
  lemma ExtendsIffInLease(cfg: Config, run: Run, t: Token)
    requires Possible(cfg, run) && t in After(run).processes
    ensures var (m, after) := (After(run), Apply(After(run), Extend(t)));
      if InLease(m, t) then after.processes[t].leaseEnd == m.now + LEASE else after == m
  {
    RunsKeepLeases(cfg, run);
    var m := After(run);
    assert LeaseOK(m, t);
    if !InLease(m, t) {
      assert m.processes[t := m.processes[t]] == m.processes;
    }
  }

  /** A process with a new token gets the lock exactly if no lease on it is stored that still runs. */
  lemma AcquiresIffFree(cfg: Config, run: Run, t: Token, id: SessionId, purpose: Purpose)
    requires Possible(cfg, run) && t !in After(run).tokens
    ensures var (m, after) := (After(run), Apply(After(run), Acquire(t, id, purpose)));
      && (t in after.processes <==> !IsLive(m.locks, id, m.now))
      && (t in after.processes ==>
            InLease(after, t) && after.processes[t] == Process(id, purpose, m.now + 10 * SECOND, Unread))
      && (t !in after.processes ==> after.locks == m.locks)
  {
    RunsKeepLeases(cfg, run);
  }

  /** Whoever leaves within the lease frees the lock at once; whoever leaves later frees nothing of another's. */
  lemma LeavingFrees(cfg: Config, run: Run, t: Token, next: Token, purpose: Purpose)
    requires Possible(cfg, run) && t in After(run).processes && next !in After(run).tokens
    ensures var (m, left) := (After(run), Apply(After(run), Leave(t)));
      var id := m.processes[t].id;
      && t !in left.processes
      && if InLease(m, t) then
           !IsLive(left.locks, id, m.now) && InLease(Apply(left, Acquire(next, id, purpose)), next)
         else left.locks == m.locks
  {
    RunsKeepLeases(cfg, run);
    assert LeaseOK(After(run), t);
  }

  // ---- sessions --------------------------------------------------------------------------------

  /** What a process in its lease saw is what is stored, unless that has been swept away. */
  ghost predicate ViewOK(m: Memory, t: Token)
    requires t in m.processes
  {
    var p := m.processes[t];
    p.view.Saw? && p.view.session.Some? ==>
      && p.id in m.ids
      && (InLease(m, t) && p.id in m.sessions ==> m.sessions[p.id].value == p.view.session.value)
  }

  ghost predicate ViewsOK(m: Memory, id: SessionId) {
    && (id in m.sessions ==> id in m.ids)
    && forall t | t in m.processes && m.processes[t].id == id :: ViewOK(m, t)
  }

  lemma StepKeepsViews(cfg: Config, m: Memory, step: Step, id: SessionId)
    requires LeasesOK(m) && ViewsOK(m, id) && Enabled(cfg, m, step)
    requires Writes(m, step, id) ==> InLease(m, step.t)
    ensures ViewsOK(Apply(m, step), id)
  {
    var after := Apply(m, step);
    forall t | t in after.processes && after.processes[t].id == id ensures ViewOK(after, t) {
      if t in m.processes {
        assert ViewOK(m, t) && LeaseOK(m, t);
        if Writes(m, step, id) {
          assert ViewOK(m, step.t) && LeaseOK(m, step.t);
        }
      }
    }
  }

  /** A session has ended once a section revoked it or rotated it away: nobody can find it usable any more. */
  ghost predicate Ended(m: Memory, id: SessionId) {
    && id in m.ids
    && (id in m.sessions ==> m.sessions[id].value.state == Revoked)
    && forall t | InLease(m, t) && m.processes[t].id == id ::
         var view := m.processes[t].view;
         view.Saw? && view.session.Some? ==> view.session.value.state == Revoked
  }

  /** The log names known tokens on their own ids. */
  ghost predicate LogOK(m: Memory, w: Write) {
    w.token in m.tokens && (w.token in m.processes ==> m.processes[w.token].id == w.id)
  }

  /** The writes to a session come in one block per token, and one of them at most ends it. */
  ghost predicate InBlocks(log: seq<Write>, id: SessionId) {
    && (forall i, j | 0 <= i < j < |log| && log[i].id == log[j].id == id && log[i].ends :: !log[j].ends)
    && (forall i, j, k | 0 <= i < j < k < |log| && log[i].id == log[j].id == log[k].id == id
          && log[i].token == log[k].token :: log[j].token == log[i].token)
  }

  /** Since `token` wrote to the session, no other did. */
  ghost predicate StillOpen(log: seq<Write>, id: SessionId, token: Token) {
    forall i, j | 0 <= i < j < |log| && log[i].id == log[j].id == id && log[i].token == token :: log[j].token == token
  }

  ghost predicate BlocksOK(m: Memory, id: SessionId) {
    && (forall w | w in m.log :: LogOK(m, w))
    && (forall w | w in m.log && w.id == id && w.ends :: Ended(m, id))
    && InBlocks(m.log, id)
    && (forall t | InLease(m, t) :: StillOpen(m.log, id, t))
  }

  lemma AppendToBlocks(log: seq<Write>, w: Write)
    requires InBlocks(log, w.id) && StillOpen(log, w.id, w.token)
    requires forall v | v in log && v.id == w.id :: !v.ends
    ensures InBlocks(log + [w], w.id) && StillOpen(log + [w], w.id, w.token)
  {
  }

  /** Nothing changes for a session nobody writes to, nor for a token that has not written. */
  lemma AppendElsewhere(log: seq<Write>, w: Write, id: SessionId, t: Token)
    requires StillOpen(log, id, t)
    requires w.id != id || forall v | v in log && v.token == t :: v.id != id
    ensures StillOpen(log + [w], id, t)
    ensures w.id != id && InBlocks(log, id) ==> InBlocks(log + [w], id)
  {
  }

  /** After its end nobody in a lease may write to a session. */
  lemma EndedIsNotWritten(cfg: Config, m: Memory, step: Step)
    requires (step.Store? || step.Erase?) && Enabled(cfg, m, step) && InLease(m, step.t)
    ensures !Ended(m, m.processes[step.t].id)
  {
  }

  lemma StepKeepsEnded(cfg: Config, m: Memory, step: Step, id: SessionId)
    requires LeasesOK(m) && ViewsOK(m, id) && Enabled(cfg, m, step) && Ended(m, id)
    requires Writes(m, step, id) ==> InLease(m, step.t)
    ensures Ended(Apply(m, step), id)
  {
    if Writes(m, step, id) {
      EndedIsNotWritten(cfg, m, step);
    }
  }

  lemma EndingEnds(cfg: Config, m: Memory, step: Step, id: SessionId)
    requires LeasesOK(m) && ViewsOK(m, id) && Enabled(cfg, m, step)
    requires Writes(m, step, id) && InLease(m, step.t)
    requires step.Erase? || m.processes[step.t].purpose.ToRevoke?
    ensures Ended(Apply(m, step), id)
  {
    assert LeaseOK(m, step.t) && ViewOK(m, step.t);
    forall u | InLease(m, u) && m.processes[u].id == id ensures u == step.t {
      assert LeaseOK(m, u);
    }
  }

  /** Who writes within a lease finds no end of the session, and no writer before it that is still in a lease. */
  lemma WriterIsAlone(cfg: Config, m: Memory, step: Step, w: Write)
    requires LeasesOK(m) && BlocksOK(m, w.id) && Enabled(cfg, m, step) && w in m.log
    requires Writes(m, step, w.id) && InLease(m, step.t)
    ensures !w.ends && (InLease(m, w.token) ==> w.token == step.t)
  {
    assert LogOK(m, w) && LeaseOK(m, step.t);
    EndedIsNotWritten(cfg, m, step);
    if InLease(m, w.token) {
      assert LeaseOK(m, w.token);
    }
  }

  lemma WriteKeepsBlocks(cfg: Config, m: Memory, step: Step, w: Write)
    requires LeasesOK(m) && BlocksOK(m, w.id) && Enabled(cfg, m, step)
    requires Writes(m, step, w.id) && InLease(m, step.t) && w.token == step.t
    ensures InBlocks(m.log + [w], w.id)
    ensures forall t | InLease(m, t) :: StillOpen(m.log + [w], w.id, t)
  {
    forall v | v in m.log && v.id == w.id ensures !v.ends && (InLease(m, v.token) ==> v.token == w.token) {
      WriterIsAlone(cfg, m, step, v);
    }
    AppendToBlocks(m.log, w);
    forall t | InLease(m, t) && t != w.token ensures StillOpen(m.log + [w], w.id, t) {
      AppendElsewhere(m.log, w, w.id, t);
    }
  }

  /** What a write adds to the log keeps its blocks, whichever session it is to. */
  lemma AnyWriteKeepsBlocks(cfg: Config, m: Memory, step: Step, w: Write, id: SessionId)
    requires LeasesOK(m) && BlocksOK(m, id) && Enabled(cfg, m, step)
    requires Writes(m, step, w.id) && w.token == step.t && (w.id == id ==> InLease(m, step.t))
    ensures InBlocks(m.log + [w], id)
    ensures forall t | InLease(m, t) :: StillOpen(m.log + [w], id, t)
  {
    if w.id == id {
      WriteKeepsBlocks(cfg, m, step, w);
    } else {
      assert InBlocks(m.log + [w], id);
      forall t | InLease(m, t) ensures StillOpen(m.log + [w], id, t) {
        AppendElsewhere(m.log, w, id, t);
      }
    }
  }

  lemma StepKeepsBlocks(cfg: Config, m: Memory, step: Step, id: SessionId)
    requires LeasesOK(m) && ViewsOK(m, id) && BlocksOK(m, id) && Enabled(cfg, m, step)
    requires Writes(m, step, id) ==> InLease(m, step.t)
    ensures BlocksOK(Apply(m, step), id)
  {
    var after := Apply(m, step);
    StepKeepsLog(cfg, m, step, id);
    if step.Store? || step.Erase? {
      AnyWriteKeepsBlocks(cfg, m, step, after.log[|m.log|], id);
    }
    forall t | InLease(after, t) ensures StillOpen(after.log, id, t) {
      if t in m.tokens {
        LapsedForGood(cfg, m, step, t);
      } else {
        NewTokenHasNotWritten(cfg, m, step, id, t);
      }
    }
  }

  lemma NewTokenHasNotWritten(cfg: Config, m: Memory, step: Step, id: SessionId, t: Token)
    requires LeasesOK(m) && BlocksOK(m, id) && Enabled(cfg, m, step) && t !in m.tokens && InLease(Apply(m, step), t)
    ensures StillOpen(Apply(m, step).log, id, t)
  {
    assert Apply(m, step).log == m.log && forall i | 0 <= i < |m.log| :: LogOK(m, m.log[i]);
  }

  lemma StepKeepsLog(cfg: Config, m: Memory, step: Step, id: SessionId)
    requires LeasesOK(m) && ViewsOK(m, id) && BlocksOK(m, id) && Enabled(cfg, m, step)
    requires Writes(m, step, id) ==> InLease(m, step.t)
    ensures forall w | w in Apply(m, step).log :: LogOK(Apply(m, step), w)
    ensures forall w | w in Apply(m, step).log && w.id == id && w.ends :: Ended(Apply(m, step), id)
  {
    var after := Apply(m, step);
    forall w | w in after.log ensures LogOK(after, w) {
      assert w in m.log ==> LogOK(m, w);
    }
    forall w | w in after.log && w.id == id && w.ends ensures Ended(after, id) {
      if w in m.log {
        StepKeepsEnded(cfg, m, step, id);
      } else {
        EndingEnds(cfg, m, step, id);
      }
    }
  }

  lemma {:induction false} PunctualRunsAreOrderly(cfg: Config, run: Run, id: SessionId)
    requires Possible(cfg, run) && Punctual(run, id)
    ensures LeasesOK(After(run)) && ViewsOK(After(run), id) && BlocksOK(After(run), id)
  {
    RunsKeepLeases(cfg, run);
    if run.Next? {
      PunctualRunsAreOrderly(cfg, run.before, id);
      StepKeepsViews(cfg, After(run.before), run.step, id);
      StepKeepsBlocks(cfg, After(run.before), run.step, id);
    }
  }

  /**
   Atomicity: if every write to a session is made within its writer's lease, then whatever a section read is
   still stored when it writes, unless it expired in between ...
   */
  lemma WritesMeetWhatWasRead(cfg: Config, run: Run, id: SessionId)
    requires Possible(cfg, run) && Punctual(run, id) && run.Next? && Writes(After(run.before), run.step, id)
    ensures var (m, view) := (After(run.before), After(run.before).processes[run.step.t].view);
      && view.Saw? && view.session.Some?
      && (id in m.sessions ==> m.sessions[id].value == view.session.value)
  {
    PunctualRunsAreOrderly(cfg, run.before, id);
    assert ViewOK(After(run.before), run.step.t);
  }

  /** ... and no other section on the session writes between two writes of one section. */
  lemma SectionsDoNotInterleave(cfg: Config, run: Run, id: SessionId, i: nat, j: nat, k: nat)
    requires Possible(cfg, run) && Punctual(run, id) && i < j < k < |After(run).log|
    requires var log := After(run).log;
      log[i].id == log[j].id == log[k].id == id && log[i].token == log[k].token
    ensures After(run).log[j].token == After(run).log[i].token
  {
    PunctualRunsAreOrderly(cfg, run, id);
  }

  /** So of all the revocations and rotations of one session, concurrent or not, one at most succeeds. */
  lemma EndsOnce(cfg: Config, run: Run, id: SessionId, i: nat, j: nat)
    requires Possible(cfg, run) && Punctual(run, id) && i < |After(run).log| && j < |After(run).log|
    requires After(run).log[i].ends && After(run).log[j].ends && After(run).log[i].id == After(run).log[j].id == id
    ensures i == j
  {
    PunctualRunsAreOrderly(cfg, run, id);
  }

  // ---- why writes must be punctual -------------------------------------------------------------

  const SLOW: Token := Token(0)
  const QUICK: Token := Token(1)

  lemma Onward(cfg: Config, run: Run, step: Step)
    requires Possible(cfg, run) && Enabled(cfg, After(run), step)
    ensures Possible(cfg, Next(run, step)) && After(Next(run, step)) == Apply(After(run), step)
  {
  }

  /** A rotation acquires the lock, reads in the last moment of its lease, at `at`, and stalls. */
  lemma SomeStall(cfg: Config, s: Session, at: Time) returns (run: Run)
    requires s.expiresAt.Some? && at + 1 < s.expiresAt.value
    ensures Possible(cfg, run)
    ensures var m := After(run);
      && m.now == at + 1 && m.locks == map[s.id := Entry(SLOW, at + 1)]
      && m.sessions == map[s.id := Entry(s, s.expiresAt.value)]
      && m.processes == map[SLOW := Process(s.id, ToRotate, at + 1, Saw(Some(s), at))]
      && m.tokens == {SLOW} && m.log == []
  {
    var start := at + 1 - LEASE;
    var init := After(Init(start));
    assert init.now == start && init.ids == {} && init.sessions == map[] && init.processes == map[];
    var created := Next(Init(start), Create(s, s.expiresAt.value - start));
    Onward(cfg, Init(start), created.step);
    assert After(created).sessions == map[s.id := Entry(s, s.expiresAt.value)];
    var acquired := Next(created, Acquire(SLOW, s.id, ToRotate));
    Onward(cfg, created, acquired.step);
    assert After(acquired).processes == map[SLOW := Process(s.id, ToRotate, at + 1, Unread)];
    var waited := Next(acquired, Tick(LEASE - 1));
    Onward(cfg, acquired, waited.step);
    var read := Next(waited, Read(SLOW));
    Onward(cfg, waited, read.step);
    run := Next(read, Tick(1));
    Onward(cfg, read, run.step);
  }

  /** A revocation comes and goes. */
  lemma Overtake(cfg: Config, s: Session, at: Time, stalled: Run) returns (run: Run)
    requires s.state != Revoked && s.expiresAt.Some? && at + 1 < s.expiresAt.value && Possible(cfg, stalled)
    requires var m := After(stalled);
      && m.now == at + 1 && m.locks == map[s.id := Entry(SLOW, at + 1)]
      && m.sessions == map[s.id := Entry(s, s.expiresAt.value)]
      && m.processes == map[SLOW := Process(s.id, ToRotate, at + 1, Saw(Some(s), at))]
      && m.tokens == {SLOW} && m.log == []
    ensures Possible(cfg, run) && After(run).now == at + 1 && After(run).log == [Write(QUICK, s.id, true)]
    ensures SLOW in After(run).processes
    ensures After(run).processes[SLOW] == Process(s.id, ToRotate, at + 1, Saw(Some(s), at))
  {
    var acquired := Next(stalled, Acquire(QUICK, s.id, ToRevoke));
    Onward(cfg, stalled, acquired.step);
    assert After(acquired).processes[QUICK] == Process(s.id, ToRevoke, at + 1 + LEASE, Unread);
    var read := Next(acquired, Read(QUICK));
    Onward(cfg, acquired, read.step);
    assert After(read).processes[QUICK].view == Saw(Some(s), at + 1);
    var revoked := s.(state := Revoked, expiresAt := None, lastSeenAt := at + 1);
    run := Next(read, Store(QUICK, revoked, Protocol.REVOKED_RETENTION));
    Onward(cfg, read, run.step);
  }

  /**
   Nothing in the code stops the late write, and then both succeed: for every session that may be rotated at
   some moment and has a moment more to live.
   */
  lemma LateWritesEndTwice(cfg: Config, s: Session, at: Time) returns (run: Run)
    requires Protocol.RotationRefused(cfg, s, at).None? && s.expiresAt.Some? && at + 1 < s.expiresAt.value
    ensures Possible(cfg, run) && !Punctual(run, s.id)
    ensures var log := After(run).log;
      |log| == 2 && log[0].ends && log[1].ends && log[0].id == log[1].id == s.id && log[0].token != log[1].token
  {
    var stalled := SomeStall(cfg, s, at);
    var overtaken := Overtake(cfg, s, at, stalled);
    run := Next(overtaken, Erase(SLOW));
    Onward(cfg, overtaken, Erase(SLOW));
  }
}
