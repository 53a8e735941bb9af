/** The advisory lock: processes guard resources with Postgres session locks, each on
    one dedicated session, under any interleaving of their calls with the server.

    The server grants a key to one session at a time and lets that session take it
    again. A query may fail before or after the server ran it, an abandoned query may
    still run later, and a discarded session ends some time after its discard. `hash`
    is any function from resources to keys. */
module AdvisoryLock {
  import opened Wrappers

  type Session = nat
  type Key = int
  type Process = nat

  /** Sessions alive on the server, each with the keys it holds, counted. */
  type Server = map<Session, multiset<Key>>

  datatype Guard = Guard(conn: Option<Session>, held: set<string>)

  /** How a query came back: answered, or an error with the statement run or not. */
  datatype Reply = Answered | Failed(ran: bool)

  const NEW_GUARD := Guard(None, {})

  // ---------- the server ----------

  predicate Free(server: Server, session: Session, key: Key) {
    forall other :: other in server && other != session ==> key !in server[other]
  }

  /** pg_try_advisory_lock */
  function TryLock(server: Server, session: Session, key: Key): (r: (Server, bool))
    requires session in server
    ensures r.0.Keys == server.Keys
  {
    if Free(server, session, key) then (server[session := server[session] + multiset{key}], true) else (server, false)
  }

  /** pg_advisory_unlock */
  function Unlock(server: Server, session: Session, key: Key): (r: (Server, bool))
    requires session in server
    ensures r.0.Keys == server.Keys
  {
    if key in server[session] then (server[session := server[session] - multiset{key}], true) else (server, false)
  }

  // ---------- one process ----------

  datatype Outcome = Outcome(server: Server, guard: Guard, ok: bool)

  /** session(): the dedicated connection, or a new session if there is none. */
  function Connected(server: Server, g: Guard, next: Session): (Server, Guard)
    requires next !in server
  {
    if g.conn.Some? then (server, g) else (server[next := multiset{}], g.(conn := Some(next)))
  }

  /** discard(): forget the session and everything held on it. */
  function Discarded(g: Guard): Guard { if g.conn.None? then g else NEW_GUARD }

  /** The query on the session: a session the server no longer has answers nothing. */
  function AcquireOn(server: Server, g: Guard, key: Key, resource: string, reply: Reply): Outcome
    requires g.conn.Some?
  {
    var session := g.conn.value;
    if session !in server then Outcome(server, Discarded(g), false)
    else
      var (after, got) := TryLock(server, session, key);
      match reply
      case Failed(ran) => Outcome(if ran then after else server, Discarded(g), false)
      case Answered => Outcome(after, if got then g.(held := g.held + {resource}) else g, got)
  }

  function AcquireStep(server: Server, g: Guard, key: Key, resource: string, next: Session,
                       dialled: bool, reply: Reply): Outcome
    requires next !in server
  {
    if resource in g.held || (g.conn.None? && !dialled) then Outcome(server, g, false)
    else
      var (srv, h) := Connected(server, g, next);
      AcquireOn(srv, h, key, resource, reply)
  }

  function ReleaseOn(server: Server, g: Guard, key: Key, reply: Reply): Outcome
    requires g.conn.Some?
  {
    var session := g.conn.value;
    if session !in server then Outcome(server, Discarded(g), false)
    else
      var (after, _) := Unlock(server, session, key);
      match reply
      case Failed(ran) => Outcome(if ran then after else server, Discarded(g), false)
      case Answered => Outcome(after, g, true)
  }

  function ReleaseStep(server: Server, g: Guard, key: Key, resource: string, next: Session,
                       dialled: bool, reply: Reply): Outcome
    requires next !in server
  {
    if resource !in g.held then Outcome(server, g, true)
    else
      var g1 := g.(held := g.held - {resource});
      if g.conn.None? && !dialled then Outcome(server, g1, false)
      else
        var (srv, h) := Connected(server, g1, next);
        ReleaseOn(srv, h, key, reply)
  }

  /** The session a call would use, if it gets one. */
  function SessionFor(g: Guard, next: Session, dialled: bool): Option<Session> {
    if g.conn.Some? then g.conn else if dialled then Some(next) else None
  }

  /** Acquire succeeds exactly when the process does not hold the resource, has or gets a
      session that the server still has, hears back, and no other session has the key; and
      success is when the resource becomes held. */
  lemma AcquireOkIff(server: Server, g: Guard, key: Key, resource: string, next: Session, dialled: bool, reply: Reply)
    requires next !in server
    ensures var o, session := AcquireStep(server, g, key, resource, next, dialled, reply), SessionFor(g, next, dialled);
      && (o.ok <==>
            && resource !in g.held && reply.Answered? && session.Some? && (g.conn.Some? ==> g.conn.value in server)
            && forall other :: other in server && Some(other) != session ==> key !in server[other])
      && (o.ok ==> o.guard == Guard(session, g.held + {resource}))
      && (!o.ok ==> o.guard.held <= g.held)
  {
    hide TryLock;
    if resource !in g.held && SessionFor(g, next, dialled).Some? {
      var (srv, h) := Connected(server, g, next);
      var session := h.conn.value;
      if session in srv {
        GrantedIff(srv, session, key);
        assert forall other :: other in srv && other != session ==> other in server && srv[other] == server[other];
        assert g.conn.None? ==> forall other :: other in server ==> other in srv && other != session;
      }
    }
  }

  lemma GrantedIff(server: Server, session: Session, key: Key)
    requires session in server
    ensures TryLock(server, session, key).1 <==>
      forall other :: other in server && other != session ==> key !in server[other]
  {
  }

  /** Release reports an error exactly when it had to ask the server and got no answer; the
      resource is not held afterwards either way. */
  lemma ReleaseOkIff(server: Server, g: Guard, key: Key, resource: string, next: Session, dialled: bool, reply: Reply)
    requires next !in server
    ensures var o, session := ReleaseStep(server, g, key, resource, next, dialled, reply), SessionFor(g, next, dialled);
      && (o.ok <==> resource !in g.held || (reply.Answered? && session.Some? && (g.conn.Some? ==> g.conn.value in server)))
      && resource !in o.guard.held && o.guard.held <= g.held
      && (o.ok ==> o.guard.held == g.held - {resource})
  {
  }

  // ---------- all processes ----------

  datatype Sys = Sys(server: Server, used: set<Session>, guards: map<Process, Guard>)

  datatype Op =
    | Join(process: Process)
    | Acquire(process: Process, resource: string, next: Session, dialled: bool, reply: Reply)
    | Release(process: Process, resource: string, next: Session, dialled: bool, reply: Reply)
    | Close(process: Process)
    | LateLock(session: Session, key: Key)     // an abandoned try-lock reaches the server late
    | LateUnlock(session: Session, key: Key)   // so does an abandoned unlock
    | End(session: Session)                  // an abandoned session ends
    | Kill(session: Session)                 // the server ends a session its process still uses

  predicate InUse(s: Sys, session: Session) {
    exists p :: p in s.guards && s.guards[p].conn == Some(session)
  }

  function Put(s: Sys, p: Process, next: Session, o: Outcome): Sys {
    Sys(o.server, s.used + {next}, s.guards[p := o.guard])
  }

  /** A fresh session id is one the server has never used. */
  function Step(hash: string -> Key, s: Sys, op: Op): Sys {
    match op
    case Join(p) => if p in s.guards then s else s.(guards := s.guards[p := NEW_GUARD])
    case Acquire(p, resource, next, dialled, reply) =>
      if p in s.guards && next !in s.used && next !in s.server
      then Put(s, p, next, AcquireStep(s.server, s.guards[p], hash(resource), resource, next, dialled, reply)) else s
    case Release(p, resource, next, dialled, reply) =>
      if p in s.guards && next !in s.used && next !in s.server
      then Put(s, p, next, ReleaseStep(s.server, s.guards[p], hash(resource), resource, next, dialled, reply)) else s
    case Close(p) => if p in s.guards then s.(guards := s.guards[p := Discarded(s.guards[p])]) else s
    case LateLock(session, key) =>
      if session in s.server && !InUse(s, session) then s.(server := TryLock(s.server, session, key).0) else s
    case LateUnlock(session, key) =>
      if session in s.server && !InUse(s, session) then s.(server := Unlock(s.server, session, key).0) else s
    case End(session) => if !InUse(s, session) then s.(server := s.server - {session}) else s
    case Kill(session) => s.(server := s.server - {session})
  }

  function Run(hash: string -> Key, ops: seq<Op>): Sys {
    if ops == [] then Sys(map[], {}, map[]) else Step(hash, Run(hash, ops[..|ops| - 1]), ops[|ops| - 1])
  }

  // ---------- the invariant ----------

  /** How many held resources hash to a key. */
  function Count(hash: string -> Key, held: set<string>, key: Key): nat {
    |set r | r in held && hash(r) == key|
  }

  /** The session holds each key as often as held resources hash to it. */
  ghost predicate Mirrors(hash: string -> Key, keys: multiset<Key>, held: set<string>) {
    forall key :: keys[key] == Count(hash, held, key)
  }

  ghost predicate GuardOk(hash: string -> Key, server: Server, g: Guard) {
    && (g.conn.None? ==> g.held == {})
    && (g.conn.Some? && g.conn.value in server ==> Mirrors(hash, server[g.conn.value], g.held))
  }

  /** No two live sessions hold one key. */
  ghost predicate KeysApart(server: Server) {
    forall a, b, key :: a in server && b in server && key in server[a] && key in server[b] ==> a == b
  }

  /** No two processes use one session, and only sessions once opened are used. */
  ghost predicate SessionsApart(s: Sys) {
    && (forall session :: session in s.server ==> session in s.used)
    && (forall p :: p in s.guards && s.guards[p].conn.Some? ==> s.guards[p].conn.value in s.used)
    && forall p, q :: p in s.guards && q in s.guards && p != q && s.guards[p].conn.Some? ==>
         s.guards[p].conn != s.guards[q].conn
  }

  ghost predicate Inv(hash: string -> Key, s: Sys) {
    && (forall p :: p in s.guards ==> GuardOk(hash, s.server, s.guards[p]))
    && KeysApart(s.server) && SessionsApart(s)
  }

  // ---------- counting ----------

  lemma CountAdd(hash: string -> Key, held: set<string>, resource: string, key: Key)
    requires resource !in held
    ensures Count(hash, held + {resource}, key) == Count(hash, held, key) + if hash(resource) == key then 1 else 0
  {
    var before := set r | r in held && hash(r) == key;
    var after := set r | r in held + {resource} && hash(r) == key;
    assert after == if hash(resource) == key then before + {resource} else before;
  }

  lemma CountRemove(hash: string -> Key, held: set<string>, resource: string, key: Key)
    requires resource in held
    ensures Count(hash, held, key) == Count(hash, held - {resource}, key) + if hash(resource) == key then 1 else 0
  {
    CountAdd(hash, held - {resource}, resource, key);
    assert held - {resource} + {resource} == held;
  }

  lemma MirrorsAdd(hash: string -> Key, keys: multiset<Key>, held: set<string>, resource: string)
    requires Mirrors(hash, keys, held) && resource !in held
    ensures Mirrors(hash, keys + multiset{hash(resource)}, held + {resource})
  {
    hide Count;
    forall key { CountAdd(hash, held, resource, key); }
  }

  lemma MirrorsRemove(hash: string -> Key, keys: multiset<Key>, held: set<string>, resource: string)
    requires Mirrors(hash, keys, held) && resource in held
    ensures hash(resource) in keys && Mirrors(hash, keys - multiset{hash(resource)}, held - {resource})
  {
    hide Count;
    forall key { CountRemove(hash, held, resource, key); }
    assert keys[hash(resource)] == Count(hash, held, hash(resource)) > 0;
  }

  lemma MirrorsNothing(hash: string -> Key)
    ensures Mirrors(hash, multiset{}, {})
  {
    forall key ensures Count(hash, {}, key) == 0 {
      assert (set r | r in {} && hash(r) == key) == {};
    }
  }

  // ---------- every step keeps the invariant ----------

  /** One process's call keeps its own bookkeeping and every other session as it was. */
  ghost predicate Local(hash: string -> Key, server: Server, g: Guard, next: Session, o: Outcome) {
    && GuardOk(hash, o.server, o.guard) && KeysApart(o.server)
    && (o.guard.conn.None? || o.guard.conn == g.conn || o.guard.conn == Some(next))
    && (forall x :: x in o.server ==> x == next || x in server)
    && (forall x :: x in server && x != next && Some(x) != g.conn ==> x in o.server && o.server[x] == server[x])
  }

  lemma PutKeeps(hash: string -> Key, s: Sys, p: Process, next: Session, o: Outcome)
    requires Inv(hash, s) && p in s.guards && next !in s.used && Local(hash, s.server, s.guards[p], next, o)
    ensures Inv(hash, Put(s, p, next, o))
  {
    hide Mirrors, KeysApart;
    var s' := Put(s, p, next, o);
    forall q | q in s'.guards ensures GuardOk(hash, s'.server, s'.guards[q]) {
      if q != p { assert GuardOk(hash, s.server, s.guards[q]); }
    }
  }

  lemma TryLockKeepsApart(server: Server, session: Session, key: Key)
    requires session in server && KeysApart(server)
    ensures KeysApart(TryLock(server, session, key).0)
  {
  }

  lemma ConnectedOk(hash: string -> Key, server: Server, g: Guard, next: Session)
    requires next !in server && GuardOk(hash, server, g) && KeysApart(server)
    ensures GuardOk(hash, Connected(server, g, next).0, Connected(server, g, next).1)
    ensures KeysApart(Connected(server, g, next).0)
  {
    hide Mirrors;
    MirrorsNothing(hash);
  }

  lemma AcquireOnLocal(hash: string -> Key, server: Server, g: Guard, resource: string, next: Session, reply: Reply)
    requires GuardOk(hash, server, g) && KeysApart(server) && g.conn.Some? && resource !in g.held
    ensures Local(hash, server, g, next, AcquireOn(server, g, hash(resource), resource, reply))
  {
    hide Mirrors, KeysApart, Free, Local;
    DiscardLocal(hash, server, g, next, server);
    if g.conn.value in server {
      var (after, got) := TryLock(server, g.conn.value, hash(resource));
      TryLockKeepsApart(server, g.conn.value, hash(resource));
      DiscardLocal(hash, server, g, next, after);
      if reply.Answered? { AnsweredLocal(hash, server, g, resource, next); }
    }
  }

  /** Giving up the session keeps everybody else's bookkeeping, whatever it held. */
  lemma DiscardLocal(hash: string -> Key, server: Server, g: Guard, next: Session, after: Server)
    requires g.conn.Some? && KeysApart(after) && after.Keys == server.Keys
    requires forall x :: x in server && x != g.conn.value ==> after[x] == server[x]
    ensures Local(hash, server, g, next, Outcome(after, Discarded(g), false))
  {
    hide Mirrors, KeysApart;
  }

  lemma AnsweredLocal(hash: string -> Key, server: Server, g: Guard, resource: string, next: Session)
    requires GuardOk(hash, server, g) && KeysApart(server) && g.conn.Some? && resource !in g.held && g.conn.value in server
    ensures Local(hash, server, g, next, AcquireOn(server, g, hash(resource), resource, Answered))
  {
    hide Mirrors, KeysApart, Free;
    TryLockKeepsApart(server, g.conn.value, hash(resource));
    MirrorsAdd(hash, server[g.conn.value], g.held, resource);
  }

  lemma AcquireLocal(hash: string -> Key, server: Server, g: Guard, resource: string, next: Session, dialled: bool, reply: Reply)
    requires next !in server && GuardOk(hash, server, g) && KeysApart(server)
    ensures Local(hash, server, g, next, AcquireStep(server, g, hash(resource), resource, next, dialled, reply))
  {
    hide Mirrors, KeysApart, AcquireOn;
    ConnectedOk(hash, server, g, next);
    var (srv, h) := Connected(server, g, next);
    if resource !in g.held && (g.conn.Some? || dialled) { AcquireOnLocal(hash, srv, h, resource, next, reply); }
  }

  lemma UnlockKeepsApart(server: Server, session: Session, key: Key)
    requires session in server && KeysApart(server)
    ensures KeysApart(Unlock(server, session, key).0)
  {
  }

  lemma ReleaseOnLocal(hash: string -> Key, server: Server, g: Guard, resource: string, next: Session, reply: Reply)
    requires GuardOk(hash, server, g) && KeysApart(server) && g.conn.Some? && resource in g.held
    ensures Local(hash, server, g, next, ReleaseOn(server, g.(held := g.held - {resource}), hash(resource), reply))
  {
    hide Mirrors, KeysApart, Local;
    var g1 := g.(held := g.held - {resource});
    DiscardLocal(hash, server, g1, next, server);
    assert Local(hash, server, g, next, Outcome(server, Discarded(g1), false)) by { LocalOfConn(hash, server, g, g1, next); }
    if g.conn.value in server {
      UnlockKeepsApart(server, g.conn.value, hash(resource));
      DiscardLocal(hash, server, g1, next, Unlock(server, g.conn.value, hash(resource)).0);
      LocalOfConn(hash, server, g, g1, next);
      if reply.Answered? { UnlockedLocal(hash, server, g, resource, next); }
    }
  }

  /** Only the session of the guard matters. */
  lemma LocalOfConn(hash: string -> Key, server: Server, g: Guard, g1: Guard, next: Session)
    requires g1.conn == g.conn
    ensures forall o :: Local(hash, server, g1, next, o) ==> Local(hash, server, g, next, o)
  {
    hide Mirrors, KeysApart, GuardOk;
  }

  lemma UnlockedLocal(hash: string -> Key, server: Server, g: Guard, resource: string, next: Session)
    requires GuardOk(hash, server, g) && KeysApart(server) && g.conn.Some? && resource in g.held && g.conn.value in server
    ensures Local(hash, server, g, next, ReleaseOn(server, g.(held := g.held - {resource}), hash(resource), Answered))
  {
    hide Mirrors, KeysApart;
    UnlockKeepsApart(server, g.conn.value, hash(resource));
    MirrorsRemove(hash, server[g.conn.value], g.held, resource);
  }

  lemma ReleaseLocal(hash: string -> Key, server: Server, g: Guard, resource: string, next: Session, dialled: bool, reply: Reply)
    requires next !in server && GuardOk(hash, server, g) && KeysApart(server)
    ensures Local(hash, server, g, next, ReleaseStep(server, g, hash(resource), resource, next, dialled, reply))
  {
    hide Mirrors, KeysApart, ReleaseOn;
    if resource in g.held { ReleaseOnLocal(hash, server, g, resource, next, reply); }
  }

  /** Steps of the server leave the sessions in use alone, or end one. */
  lemma ServerKeeps(hash: string -> Key, s: Sys, server: Server)
    requires Inv(hash, s) && KeysApart(server)
    requires forall x :: x in server ==> x in s.server && (InUse(s, x) ==> server[x] == s.server[x])
    ensures Inv(hash, s.(server := server))
  {
    hide Mirrors, KeysApart;
    forall p | p in s.guards ensures GuardOk(hash, server, s.guards[p]) {
      assert GuardOk(hash, s.server, s.guards[p]);
    }
  }

  lemma CallKeeps(hash: string -> Key, s: Sys, op: Op)
    requires Inv(hash, s) && (op.Acquire? || op.Release?)
    ensures Inv(hash, Step(hash, s, op))
  {
    hide AcquireStep, ReleaseStep, Mirrors, Local, KeysApart, SessionsApart;
    if op.process in s.guards && op.next !in s.used && op.next !in s.server {
      var g, key := s.guards[op.process], hash(op.resource);
      if op.Acquire? {
        AcquireLocal(hash, s.server, g, op.resource, op.next, op.dialled, op.reply);
        PutKeeps(hash, s, op.process, op.next, AcquireStep(s.server, g, key, op.resource, op.next, op.dialled, op.reply));
      } else {
        ReleaseLocal(hash, s.server, g, op.resource, op.next, op.dialled, op.reply);
        PutKeeps(hash, s, op.process, op.next, ReleaseStep(s.server, g, key, op.resource, op.next, op.dialled, op.reply));
      }
    }
  }

  lemma ServerStepKeeps(hash: string -> Key, s: Sys, op: Op)
    requires Inv(hash, s) && (op.LateLock? || op.LateUnlock? || op.End? || op.Kill?)
    ensures Inv(hash, Step(hash, s, op))
  {
    hide Mirrors, GuardOk, SessionsApart, Free;
    match op {
      case LateLock(session, key) =>
        if session in s.server && !InUse(s, session) {
          TryLockKeepsApart(s.server, session, key);
          ServerKeeps(hash, s, TryLock(s.server, session, key).0);
        }
      case LateUnlock(session, key) =>
        if session in s.server && !InUse(s, session) {
          UnlockKeepsApart(s.server, session, key);
          ServerKeeps(hash, s, Unlock(s.server, session, key).0);
        }
      case End(session) =>
        if !InUse(s, session) { ServerKeeps(hash, s, s.server - {session}); }
      case Kill(session) => ServerKeeps(hash, s, s.server - {session});
    }
  }

  lemma GuardKeeps(hash: string -> Key, s: Sys, op: Op)
    requires Inv(hash, s) && (op.Join? || op.Close?)
    ensures Inv(hash, Step(hash, s, op))
  {
    hide Mirrors, KeysApart;
  }

  lemma StepKeeps(hash: string -> Key, s: Sys, op: Op)
    requires Inv(hash, s)
    ensures Inv(hash, Step(hash, s, op))
  {
    hide Step, Inv;
    match op {
      case Acquire(_, _, _, _, _) => CallKeeps(hash, s, op);
      case Release(_, _, _, _, _) => CallKeeps(hash, s, op);
      case Join(_) => GuardKeeps(hash, s, op);
      case Close(_) => GuardKeeps(hash, s, op);
      case _ => ServerStepKeeps(hash, s, op);
    }
  }

  lemma {:induction false} RunInv(hash: string -> Key, ops: seq<Op>)
    ensures Inv(hash, Run(hash, ops))
  {
    hide Step, Inv;
    if ops != [] {
      RunInv(hash, ops[..|ops| - 1]);
      StepKeeps(hash, Run(hash, ops[..|ops| - 1]), ops[|ops| - 1]);
    } else {
      EmptyInv(hash);
    }
  }

  lemma EmptyInv(hash: string -> Key)
    ensures Inv(hash, Run(hash, []))
  {
  }

  // ---------- theorems over whole runs ----------

  /** The process has no session, or one the server still has. */
  predicate Live(s: Sys, p: Process) {
    p in s.guards && (s.guards[p].conn.Some? ==> s.guards[p].conn.value in s.server)
  }

  /** Bookkeeping: a live process's session holds every key exactly as often as there are
      held resources hashing to it, and without a session nothing is held. */
  lemma Bookkeeping(hash: string -> Key, ops: seq<Op>, p: Process, key: Key)
    requires Live(Run(hash, ops), p)
    ensures var s := Run(hash, ops);
      var g := s.guards[p];
      Count(hash, g.held, key) == if g.conn.Some? then s.server[g.conn.value][key] else 0
  {
    hide Run;
    RunInv(hash, ops);
    MirrorsNothing(hash);
    assert GuardOk(hash, Run(hash, ops).server, Run(hash, ops).guards[p]);
  }

  /** Two live processes never hold resources that hash to one key. */
  lemma HeldApart(hash: string -> Key, ops: seq<Op>, p: Process, q: Process, a: string, b: string)
    requires Live(Run(hash, ops), p) && Live(Run(hash, ops), q) && p != q
    requires a in Run(hash, ops).guards[p].held && b in Run(hash, ops).guards[q].held
    ensures hash(a) != hash(b)
  {
    hide Run;
    var s := Run(hash, ops);
    RunInv(hash, ops);
    HeldIsLocked(hash, s, p, a);
    HeldIsLocked(hash, s, q, b);
  }

  lemma HeldIsLocked(hash: string -> Key, s: Sys, p: Process, a: string)
    requires Inv(hash, s) && Live(s, p) && a in s.guards[p].held
    ensures s.guards[p].conn.Some? && hash(a) in s.server[s.guards[p].conn.value]
  {
    assert GuardOk(hash, s.server, s.guards[p]);
    MirrorsRemove(hash, s.server[s.guards[p].conn.value], s.guards[p].held, a);
  }

  predicate NeverKilled(ops: seq<Op>) { forall i :: 0 <= i < |ops| ==> !ops[i].Kill? }

  /** Unless the server kills a session in use, every process is live in every run. */
  lemma {:induction false} AlwaysLive(hash: string -> Key, ops: seq<Op>, p: Process)
    requires NeverKilled(ops) && p in Run(hash, ops).guards
    ensures Live(Run(hash, ops), p)
  {
    hide Step, Inv;
    if ops != [] {
      var before, op := ops[..|ops| - 1], ops[|ops| - 1];
      if p in Run(hash, before).guards { AlwaysLive(hash, before, p); }
      RunInv(hash, before);
      StepLive(hash, Run(hash, before), op, p);
    }
  }

  lemma StepLive(hash: string -> Key, s: Sys, op: Op, p: Process)
    requires Inv(hash, s) && !op.Kill? && p in Step(hash, s, op).guards
    requires p in s.guards ==> Live(s, p)
    ensures Live(Step(hash, s, op), p)
  {
    hide Mirrors, KeysApart, GuardOk, Free, TryLock, Unlock;
    if p in s.guards && s.guards[p].conn.Some? { assert InUse(s, s.guards[p].conn.value); }
  }

  /** Without a killed session, two processes never hold resources of one key. */
  lemma MutualExclusion(hash: string -> Key, ops: seq<Op>, p: Process, q: Process, a: string, b: string)
    requires NeverKilled(ops) && p != q && p in Run(hash, ops).guards && q in Run(hash, ops).guards
    requires a in Run(hash, ops).guards[p].held && b in Run(hash, ops).guards[q].held
    ensures hash(a) != hash(b)
  {
    AlwaysLive(hash, ops, p);
    AlwaysLive(hash, ops, q);
    HeldApart(hash, ops, p, q, a, b);
  }

  /** A process whose session was killed: if no session has the key, another process is
      granted what the first still believes it holds. */
  lemma KilledGuardsNothing(hash: string -> Key, ops: seq<Op>, p: Process, q: Process, resource: string, next: Session)
    requires var s := Run(hash, ops);
      && p in s.guards && q in s.guards && p != q && !Live(s, p) && resource in s.guards[p].held
      && s.guards[q] == NEW_GUARD && next !in s.used
      && forall x :: x in s.server ==> hash(resource) !in s.server[x]
    ensures var s' := Run(hash, ops + [Acquire(q, resource, next, true, Answered)]);
      && p in s'.guards && q in s'.guards && resource in s'.guards[p].held && resource in s'.guards[q].held
      && Live(s', q)
  {
    RunInv(hash, ops);
    var more := ops + [Acquire(q, resource, next, true, Answered)];
    assert more[..|more| - 1] == ops;
  }

  /** Some other live process holds a resource of the key. */
  ghost predicate GrantedElsewhere(hash: string -> Key, s: Sys, p: Process, key: Key) {
    exists q, b :: q != p && Live(s, q) && b in s.guards[q].held && hash(b) == key
  }

  /** The continuation kills nobody, and ends with p still holding the resource and its
      key granted to another live process. */
  ghost predicate LosesGuard(hash: string -> Key, ops: seq<Op>, more: seq<Op>, p: Process, resource: string) {
    var s := Run(hash, ops + more);
    NeverKilled(more) && p in s.guards && resource in s.guards[p].held && GrantedElsewhere(hash, s, p, hash(resource))
  }

  lemma {:induction false} StaysLive(hash: string -> Key, ops: seq<Op>, more: seq<Op>, p: Process)
    requires Live(Run(hash, ops), p) && NeverKilled(more)
    ensures Live(Run(hash, ops + more), p)
  {
    hide Step, Inv;
    if more == [] {
      assert ops + more == ops;
    } else {
      var n := |more| - 1;
      StaysLive(hash, ops, more[..n], p);
      assert (ops + more)[..|ops + more| - 1] == ops + more[..n];
      RunInv(hash, ops + more[..n]);
      GuardsStay(hash, Run(hash, ops + more[..n]), more[n], p);
      StepLive(hash, Run(hash, ops + more[..n]), more[n], p);
    }
  }

  lemma GuardsStay(hash: string -> Key, s: Sys, op: Op, p: Process)
    requires p in s.guards
    ensures p in Step(hash, s, op).guards
  {
    hide AcquireStep, ReleaseStep, Free;
  }

  lemma FreshNat(used: set<nat>) returns (n: nat)
    ensures n !in used
  {
    n := FreshAbove(used, 0);
  }

  lemma {:induction false} FreshAbove(used: set<nat>, from: nat) returns (n: nat)
    ensures n >= from && n !in used
    decreases |used|
  {
    if from in used { n := FreshAbove(used - {from}, from + 1); } else { n := from; }
  }

  lemma RunSnoc(hash: string -> Key, ops: seq<Op>, op: Op)
    ensures Run(hash, ops + [op]) == Step(hash, Run(hash, ops), op)
  {
    hide Step;
    assert (ops + [op])[..|ops|] == ops;
  }

  /** No session has the key: a new process comes and takes it. */
  lemma TakeFreeKey(hash: string -> Key, ops: seq<Op>, p: Process, resource: string) returns (more: seq<Op>)
    requires var s := Run(hash, ops);
      && p in s.guards && !Live(s, p) && resource in s.guards[p].held
      && forall x :: x in s.server ==> hash(resource) !in s.server[x]
    ensures LosesGuard(hash, ops, more, p, resource)
  {
    hide Run;
    var s := Run(hash, ops);
    var q := FreshNat(s.guards.Keys);
    var next := FreshNat(s.used);
    RunSnoc(hash, ops, Join(q));
    KilledGuardsNothing(hash, ops + [Join(q)], p, q, resource, next);
    more := [Join(q)] + [Acquire(q, resource, next, true, Answered)];
    assert ops + more == ops + [Join(q)] + [Acquire(q, resource, next, true, Answered)];
  }

  /** Under the key of a session in use lies a held resource. */
  lemma LockedIsHeld(hash: string -> Key, s: Sys, q: Process, key: Key) returns (b: string)
    requires Inv(hash, s) && Live(s, q) && s.guards[q].conn.Some? && key in s.server[s.guards[q].conn.value]
    ensures b in s.guards[q].held && hash(b) == key
  {
    var g := s.guards[q];
    assert GuardOk(hash, s.server, g);
    assert s.server[g.conn.value][key] == Count(hash, g.held, key);
    b :| b in (set r | r in g.held && hash(r) == key);
  }

  /** A process guards what it holds exactly as long as its session lives: some
      continuation without kills grants its key to another live process if and only if
      its session was killed. */
  lemma GuardsIffLive(hash: string -> Key, ops: seq<Op>, p: Process, resource: string)
    requires p in Run(hash, ops).guards && resource in Run(hash, ops).guards[p].held
    ensures (exists more :: LosesGuard(hash, ops, more, p, resource)) <==> !Live(Run(hash, ops), p)
  {
    hide Run, LosesGuard;
    if Live(Run(hash, ops), p) {
      forall more ensures !LosesGuard(hash, ops, more, p, resource) { LiveKeepsGuard(hash, ops, more, p, resource); }
    } else {
      var more := DeadLosesGuard(hash, ops, p, resource);
    }
  }

  lemma LiveKeepsGuard(hash: string -> Key, ops: seq<Op>, more: seq<Op>, p: Process, resource: string)
    requires Live(Run(hash, ops), p)
    ensures !LosesGuard(hash, ops, more, p, resource)
  {
    hide Run;
    if LosesGuard(hash, ops, more, p, resource) {
      StaysLive(hash, ops, more, p);
      var s := Run(hash, ops + more);
      var q, b :| q != p && Live(s, q) && b in s.guards[q].held && hash(b) == hash(resource);
      HeldApart(hash, ops + more, p, q, resource, b);
    }
  }

  lemma DeadLosesGuard(hash: string -> Key, ops: seq<Op>, p: Process, resource: string) returns (more: seq<Op>)
    requires p in Run(hash, ops).guards && resource in Run(hash, ops).guards[p].held && !Live(Run(hash, ops), p)
    ensures LosesGuard(hash, ops, more, p, resource)
  {
    hide Run, Mirrors;
    var s, key := Run(hash, ops), hash(resource);
    RunInv(hash, ops);
    if x :| x in s.server && key in s.server[x] {
      if InUse(s, x) {
        var q :| q in s.guards && s.guards[q].conn == Some(x);
        var b := LockedIsHeld(hash, s, q, key);
        assert ops + [] == ops;
        more := [];
      } else {
        RunSnoc(hash, ops, End(x));
        var rest := TakeFreeKey(hash, ops + [End(x)], p, resource);
        more := [End(x)] + rest;
        assert ops + more == ops + [End(x)] + rest;
      }
    } else {
      more := TakeFreeKey(hash, ops, p, resource);
    }
  }

  /** Such a run exists for every resource. */
  lemma KilledSessionShared(hash: string -> Key, resource: string) returns (ops: seq<Op>)
    ensures var s := Run(hash, ops);
      0 in s.guards && 1 in s.guards && resource in s.guards[0].held && resource in s.guards[1].held
  {
    hide Step;
    var join := [Join(0), Join(1)];
    var took := join + [Acquire(0, resource, 0, true, Answered)];
    var kill := took + [Kill(0)];
    assert Run(hash, join) == Sys(map[], {}, map[0 := NEW_GUARD, 1 := NEW_GUARD]) by { JoinBoth(hash); }
    assert took[..|took| - 1] == join && kill[..|kill| - 1] == took;
    FirstTakes(hash, Run(hash, join), resource);
    KilledGuardsNothing(hash, kill, 0, 1, resource, 1);
    ops := kill + [Acquire(1, resource, 1, true, Answered)];
  }

  lemma JoinBoth(hash: string -> Key)
    ensures Run(hash, [Join(0), Join(1)]) == Sys(map[], {}, map[0 := NEW_GUARD, 1 := NEW_GUARD])
  {
    assert [Join(0), Join(1)][..1] == [Join(0)] && [Join(0)][..0] == [];
  }

  lemma FirstTakes(hash: string -> Key, s: Sys, resource: string)
    requires s == Sys(map[], {}, map[0 := NEW_GUARD, 1 := NEW_GUARD])
    ensures var t := Step(hash, Step(hash, s, Acquire(0, resource, 0, true, Answered)), Kill(0));
      t == Sys(map[], {0}, map[0 := Guard(Some(0), {resource}), 1 := NEW_GUARD])
  {
    hide AcquireStep;
    FirstOutcome(hash(resource), resource);
    var s1 := Step(hash, s, Acquire(0, resource, 0, true, Answered));
    assert s1.guards == map[0 := Guard(Some(0), {resource}), 1 := NEW_GUARD] && s1.used == {0};
    assert s1.server - {0} == map[];
  }

  lemma FirstOutcome(key: Key, resource: string)
    ensures AcquireStep(map[], NEW_GUARD, key, resource, 0, true, Answered)
         == Outcome(map[0 := multiset{key}], Guard(Some(0), {resource}), true)
  {
    var srv: Server := map[0 := multiset{}];
    assert Connected(map[], NEW_GUARD, 0) == (srv, Guard(Some(0), {}));
    assert Free(srv, 0, key) && multiset{} + multiset{key} == multiset{key};
  }
}

/** The Advisory lock as the process runs it: fields updated in place, under its mutex. */
module AdvisoryClient {
  import opened Wrappers
  import opened AdvisoryLock

  class Postgres {
    var sessions: Server

    constructor ()
      ensures sessions == map[]
    {
      sessions := map[];
    }
  }

  class Advisory {
    const db: Postgres
    const hash: string -> Key
    var conn: Option<Session>
    var held: set<string>

    constructor (db: Postgres, hash: string -> Key)
      ensures this.db == db && this.hash == hash && State() == NEW_GUARD
    {
      this.db, this.hash, conn, held := db, hash, None, {};
    }

    function State(): Guard
      reads this
    {
      Guard(conn, held)
    }

    method Discard()
      modifies this
      ensures State() == Discarded(old(State()))
    {
      if conn.Some? {
        conn, held := None, {};
      }
    }

    /** session(): false if a new connection could not be dialled. */
    method OpenSession(next: Session, dialled: bool) returns (ok: bool)
      requires next !in db.sessions
      modifies this, db
      ensures ok == (old(conn).Some? || dialled)
      ensures (db.sessions, State())
           == if ok then Connected(old(db.sessions), old(State()), next) else (old(db.sessions), old(State()))
    {
      if conn.Some? { return true; }
      if !dialled { return false; }
      db.sessions := db.sessions[next := multiset{}];
      conn := Some(next);
      return true;
    }

    /** The query and what follows it, once there is a session. */
    method LockOn(resource: string, reply: Reply) returns (ok: bool)
      requires conn.Some?
      modifies this, db
      ensures Outcome(db.sessions, State(), ok) == AcquireOn(old(db.sessions), old(State()), hash(resource), resource, reply)
    {
      hide Free;
      var acquired := false;
      if conn.value in db.sessions && (reply.Answered? || reply.ran) {
        var (after, got) := TryLock(db.sessions, conn.value, hash(resource));
        db.sessions := after;
        acquired := got;
      }
      if reply.Failed? || conn.value !in db.sessions {
        Discard();
        return false;
      }
      if !acquired { return false; }
      held := held + {resource};
      return true;
    }

    method UnlockOn(resource: string, reply: Reply) returns (ok: bool)
      requires conn.Some?
      modifies this, db
      ensures Outcome(db.sessions, State(), ok) == ReleaseOn(old(db.sessions), old(State()), hash(resource), reply)
    {
      if conn.value in db.sessions && (reply.Answered? || reply.ran) {
        var (after, _) := Unlock(db.sessions, conn.value, hash(resource));
        db.sessions := after;
      }
      if reply.Failed? || conn.value !in db.sessions {
        Discard();
        return false;
      }
      return true;
    }

    method Acquire(resource: string, next: Session, dialled: bool, reply: Reply) returns (ok: bool)
      requires next !in db.sessions
      modifies this, db
      ensures Outcome(db.sessions, State(), ok)
           == AcquireStep(old(db.sessions), old(State()), hash(resource), resource, next, dialled, reply)
    {
      hide AcquireOn;
      if resource in held { return false; }
      var connected := OpenSession(next, dialled);
      if !connected { return false; }
      ok := LockOn(resource, reply);
    }

    method Release(resource: string, next: Session, dialled: bool, reply: Reply) returns (ok: bool)
      requires next !in db.sessions
      modifies this, db
      ensures Outcome(db.sessions, State(), ok)
           == ReleaseStep(old(db.sessions), old(State()), hash(resource), resource, next, dialled, reply)
    {
      hide ReleaseOn;
      if resource !in held { return true; }
      held := held - {resource};
      var connected := OpenSession(next, dialled);
      if !connected { return false; }
      ok := UnlockOn(resource, reply);
    }

    /** Close() hands the session back, with every lock on it. */
    method Close()
      modifies this
      ensures State() == Discarded(old(State()))
    {
      Discard();
    }
  }
}
