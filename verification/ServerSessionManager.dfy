// The table of open sessions (common/libserver/ServerSessionManager.cpp:16-43, 77-81), first
// as a state machine, then as the object that works in place.
module ServerSessionManager {

  const INT_MAX: int := 0x7fff_ffff

  // 0 before the first admission, -1 after closing.
  type Id = x: int | x >= -1

  class TcpSession {
    var sessionId: Id

    // TcpSession.cpp:33.
    constructor ()
      ensures sessionId == 0
    {
      sessionId := 0;
    }
  }

  // ---------- The state machine ----------

  // The last id given out, the table, and the id that each session carries.
  datatype Registry = Registry(current: nat, table: map<Id, TcpSession>, ids: map<TcpSession, Id>)

  const EMPTY: Registry := Registry(0, map[], map[])

  function IdOf(r: Registry, s: TcpSession): Id { if s in r.ids then r.ids[s] else 0 }

  // What the loop of the manager runs; a sweep finds out which weak pointers have expired.
  datatype Event = Add(s: TcpSession) | Close(s: TcpSession) | Sweep(expired: set<TcpSession>)

  predicate IsAdmitted(r: Registry, limit: nat) { |r.table| < limit }

  // In line 23 of the source, % binds tighter than +, so ids are not wrapped.
  function NextId(r: Registry): nat { r.current + 1 % INT_MAX }

  // An insertion does not replace an entry.
  function Inserted(table: map<Id, TcpSession>, id: Id, s: TcpSession): map<Id, TcpSession> {
    if id in table then table else table[id := s]
  }

  function Without(table: map<Id, TcpSession>, id: Id): map<Id, TcpSession> { table - {id} }

  function Live(table: map<Id, TcpSession>, expired: set<TcpSession>): map<Id, TcpSession> {
    map k | k in table && table[k] !in expired :: table[k]
  }

  function Step(r: Registry, limit: nat, e: Event): Registry {
    match e
    case Add(s) =>
      if !IsAdmitted(r, limit) then r
      else
        var id := NextId(r);
        Registry(id, Inserted(r.table, id, s), r.ids[s := id])
    case Close(s) => r.(table := Without(r.table, IdOf(r, s)), ids := r.ids[s := -1])
    case Sweep(expired) => r.(table := Live(r.table, expired))
  }

  // The state after a run, and the sessions that it admitted, in order.
  function Run(limit: nat, events: seq<Event>): (run: (Registry, seq<TcpSession>))
    decreases |events|
  {
    if |events| == 0 then (EMPTY, [])
    else
      var (r, admitted) := Run(limit, events[..|events| - 1]);
      var e := events[|events| - 1];
      (Step(r, limit, e), if e.Add? && IsAdmitted(r, limit) then admitted + [e.s] else admitted)
  }

  // What every run keeps: ids count the admissions, every entry is of the session that was
  // admitted under its id, and no session carries the id of another one.
  ghost predicate Inv(r: Registry, admitted: seq<TcpSession>, limit: nat) {
    && |r.table| <= limit
    && r.current == |admitted|
    && (forall k :: k in r.table ==> 1 <= k <= |admitted| && r.table[k] == admitted[k - 1])
    && (forall s :: s in r.ids ==> -1 <= r.ids[s] <= |admitted| && (r.ids[s] >= 1 ==> admitted[r.ids[s] - 1] == s))
  }

  lemma AddKeepsInv(r: Registry, admitted: seq<TcpSession>, limit: nat, s: TcpSession)
    requires Inv(r, admitted, limit) && IsAdmitted(r, limit)
    ensures NextId(r) == |admitted| + 1 && NextId(r) !in r.table
    ensures Inv(Step(r, limit, Add(s)), admitted + [s], limit)
  {
    var id, after := NextId(r), Step(r, limit, Add(s));
    assert id == |admitted| + 1;
    assert after.table == r.table[id := s];
    forall x | x in after.ids
      ensures -1 <= after.ids[x] <= |admitted| + 1 && (after.ids[x] >= 1 ==> (admitted + [s])[after.ids[x] - 1] == x)
    {
      assert x == s || (x in r.ids && after.ids[x] == r.ids[x]);
    }
  }

  lemma CloseKeepsInv(r: Registry, admitted: seq<TcpSession>, limit: nat, s: TcpSession)
    requires Inv(r, admitted, limit)
    ensures Inv(Step(r, limit, Close(s)), admitted, limit)
  {
    FewerEntries(r.table, Without(r.table, IdOf(r, s)));
  }

  lemma SweepKeepsInv(r: Registry, admitted: seq<TcpSession>, limit: nat, expired: set<TcpSession>)
    requires Inv(r, admitted, limit)
    ensures Inv(Step(r, limit, Sweep(expired)), admitted, limit)
  {
    FewerEntries(r.table, Live(r.table, expired));
  }

  lemma StepKeepsInv(r: Registry, admitted: seq<TcpSession>, limit: nat, e: Event)
    requires Inv(r, admitted, limit)
    ensures Inv(Step(r, limit, e), if e.Add? && IsAdmitted(r, limit) then admitted + [e.s] else admitted, limit)
  {
    hide Inv;
    match e
    case Add(s) => if IsAdmitted(r, limit) { AddKeepsInv(r, admitted, limit, s); }
    case Close(s) => CloseKeepsInv(r, admitted, limit, s);
    case Sweep(expired) => SweepKeepsInv(r, admitted, limit, expired);
  }

  lemma FewerEntries<K, V>(m: map<K, V>, n: map<K, V>)
    requires n.Keys <= m.Keys
    ensures |n| <= |m|
  {
    SubsetSize(n.Keys, m.Keys);
  }

  lemma SubsetSize<T>(a: set<T>, b: set<T>)
    requires a <= b
    ensures |a| <= |b|
  {
    assert b == a + (b - a);
  }

  lemma {:induction false} RunKeepsInv(limit: nat, events: seq<Event>)
    ensures var (r, admitted) := Run(limit, events); Inv(r, admitted, limit)
    decreases |events|
  {
    hide Inv, Step;
    if |events| == 0 {
      EmptyInv(limit);
    } else {
      var before := events[..|events| - 1];
      RunKeepsInv(limit, before);
      StepKeepsInv(Run(limit, before).0, Run(limit, before).1, limit, events[|events| - 1]);
    }
  }

  lemma EmptyInv(limit: nat)
    ensures Inv(EMPTY, [], limit)
  {
  }

  // ---------- What holds of every run ----------

  lemma NeverOverLimit(limit: nat, events: seq<Event>)
    ensures |Run(limit, events).0.table| <= limit
  {
    hide Run;
    RunKeepsInv(limit, events);
  }

  // The n-th admission gets the id n, which an int can hold for exactly the first 2^31 - 1.
  lemma AdmissionGetsNextId(limit: nat, events: seq<Event>, s: TcpSession)
    ensures var (r, admitted) := Run(limit, events); |r.table| < limit ==>
      && IdOf(Step(r, limit, Add(s)), s) == |admitted| + 1
      && Step(r, limit, Add(s)).table == r.table[|admitted| + 1 := s]
      && |admitted| + 1 !in r.table
      && (NextId(r) <= 0x7fff_ffff <==> |admitted| < 0x7fff_ffff)
  {
    hide Run, Inv;
    RunKeepsInv(limit, events);
    var (r, admitted) := Run(limit, events);
    if IsAdmitted(r, limit) {
      AddKeepsInv(r, admitted, limit, s);
    }
  }

  // Every entry is of the session that was admitted under its id.
  lemma EntriesAreAdmissions(limit: nat, events: seq<Event>, k: Id)
    ensures var (r, admitted) := Run(limit, events);
      k in r.table ==> 1 <= k <= |admitted| && r.table[k] == admitted[k - 1]
  {
    hide Run;
    RunKeepsInv(limit, events);
  }

  // At the limit nothing changes.
  lemma FullTableRefuses(limit: nat, r: Registry, s: TcpSession)
    requires |r.table| >= limit
    ensures Step(r, limit, Add(s)) == r
  {
  }

  // What the sessions carry afterwards.
  lemma IdsAfter(limit: nat, r: Registry, s: TcpSession, x: TcpSession, expired: set<TcpSession>)
    ensures IdOf(Step(r, limit, Close(s)), x) == if x == s then -1 else IdOf(r, x)
    ensures |r.table| < limit ==> IdOf(Step(r, limit, Add(s)), x) == if x == s then NextId(r) else IdOf(r, x)
    ensures IdOf(Step(r, limit, Sweep(expired)), x) == IdOf(r, x)
    ensures Step(r, limit, Close(s)).current == r.current == Step(r, limit, Sweep(expired)).current
  {
  }

  // A run from the empty table takes one step for each event.
  lemma RunUnfolds(limit: nat, events: seq<Event>, e: Event)
    ensures Run(limit, []) == (Registry(0, map[], map[]), [])
    ensures var (r, admitted) := Run(limit, events);
      Run(limit, events + [e]) == (Step(r, limit, e), if e.Add? && |r.table| < limit then admitted + [e.s] else admitted)
  {
    hide Step;
    assert (events + [e])[..|events|] == events;
  }

  lemma {:induction false} AdmissionsGrow(limit: nat, events: seq<Event>, n: nat)
    requires n <= |events|
    ensures Run(limit, events[..n]).1 <= Run(limit, events).1
    decreases |events|
  {
    hide Step;
    if n < |events| {
      AdmissionsGrow(limit, events[..|events| - 1], n);
      assert events[..|events| - 1][..n] == events[..n];
    } else {
      assert events[..n] == events;
    }
  }

  // Of two admissions in a run, the later one gets the larger id.
  lemma IdsIncrease(limit: nat, events: seq<Event>, i: nat, j: nat)
    requires i < j < |events| && events[i].Add? && events[j].Add?
    requires IsAdmitted(Run(limit, events[..i]).0, limit) && IsAdmitted(Run(limit, events[..j]).0, limit)
    ensures NextId(Run(limit, events[..i]).0) < NextId(Run(limit, events[..j]).0)
  {
    hide Inv;
    var upToI := events[..i + 1];
    assert upToI[..i] == events[..i];
    AdmissionsGrow(limit, events[..j], i + 1);
    assert events[..j][..i + 1] == upToI;
    AdmissionGetsNextId(limit, events[..i], events[i].s);
    AdmissionGetsNextId(limit, events[..j], events[j].s);
    CountsAdmissions(limit, events[..i]);
    CountsAdmissions(limit, events[..j]);
  }

  lemma CountsAdmissions(limit: nat, events: seq<Event>)
    ensures NextId(Run(limit, events).0) == |Run(limit, events).1| + 1
  {
    hide Run;
    RunKeepsInv(limit, events);
  }

  // An entry goes only when its own session is closed under this id or swept as expired;
  // closing a session or sweeping it does remove the entry, and touches no other.
  lemma EntriesStay(limit: nat, events: seq<Event>, e: Event, k: Id)
    ensures var r := Run(limit, events).0; k in r.table ==>
      var s, after := r.table[k], Step(r, limit, e).table;
      && (k in after ==> after[k] == s)
      && (k !in after <==> (e == Close(s) && IdOf(r, s) == k) || (e.Sweep? && s in e.expired))
  {
    hide Run;
    RunKeepsInv(limit, events);
    var (r, admitted) := Run(limit, events);
    if k in r.table && e.Close? && IdOf(r, e.s) == k {
      assert e.s in r.ids && admitted[k - 1] == e.s;
    }
  }

  // .. and no event but an admission adds one.
  lemma EntriesAppear(limit: nat, events: seq<Event>, e: Event, k: Id)
    ensures var (r, admitted) := Run(limit, events); k in Step(r, limit, e).table && k !in r.table ==>
      e.Add? && k == |admitted| + 1 && Step(r, limit, e).table[k] == e.s
  {
    hide Run, Inv;
    RunKeepsInv(limit, events);
    CountsAdmissions(limit, events);
  }

  // ---------- The object ----------

  class ServerSessionManager {
    const maxSessionCount: nat
    var currentSession: nat
    var sessions: map<Id, TcpSession>
    // The sessions that have had an id, with their present ones, and those admitted, in order.
    ghost var ids: map<TcpSession, Id>
    ghost var admitted: seq<TcpSession>

    ghost function State(): Registry
      reads this
    {
      Registry(currentSession, sessions, ids)
    }

    ghost predicate Valid()
      reads this, ids.Keys
    {
      && (forall s :: s in ids ==> s.sessionId == ids[s])
      && Inv(State(), admitted, maxSessionCount)
    }

    constructor (limit: nat)
      ensures Valid() && maxSessionCount == limit && State() == EMPTY && admitted == []
    {
      maxSessionCount := limit;
      currentSession, sessions, ids, admitted := 0, map[], map[], [];
    }

    // A session as the manager left it, or one that it has not seen.
    ghost predicate Carries(s: TcpSession)
      reads this, s
    {
      s.sessionId == IdOf(State(), s)
    }

    // do_add_session. The id must still fit an int; a refused session is closed.
    method DoAddSession(s: TcpSession)
      requires Valid() && Carries(s)
      requires |sessions| < maxSessionCount ==> |admitted| < INT_MAX
      modifies this, s
      ensures Valid() && Carries(s)
      ensures State() == Step(old(State()), maxSessionCount, Add(s))
      ensures admitted == if old(|sessions|) < maxSessionCount then old(admitted) + [s] else old(admitted)
    {
      hide Inv, Inserted;
      if |sessions| >= maxSessionCount {
        return;
      }
      AddKeepsInv(State(), admitted, maxSessionCount, s);
      currentSession := currentSession + 1 % INT_MAX;
      s.sessionId := currentSession;
      sessions := Inserted(sessions, currentSession, s);
      ids, admitted := ids[s := s.sessionId], admitted + [s];
    }

    // do_close_session.
    method DoCloseSession(s: TcpSession)
      requires Valid() && Carries(s)
      modifies this, s
      ensures Valid() && Carries(s) && admitted == old(admitted)
      ensures State() == Step(old(State()), maxSessionCount, Close(s))
    {
      hide Inv, Without;
      CloseKeepsInv(State(), admitted, maxSessionCount, s);
      sessions := Without(sessions, s.sessionId);
      s.sessionId := -1;
      ids := ids[s := -1];
    }

    // check_session_alive, when the weak pointers to the sessions in expired are dead.
    method CheckSessionAlive(expired: set<TcpSession>)
      requires Valid()
      modifies this`sessions
      ensures Valid()
      ensures State() == Step(old(State()), maxSessionCount, Sweep(expired))
    {
      hide Inv, Live;
      SweepKeepsInv(State(), admitted, maxSessionCount, expired);
      EraseExpired(expired);
    }

    // The loop at lines 31-42, which visits the entries in any order.
    method EraseExpired(expired: set<TcpSession>)
      modifies this`sessions
      ensures sessions == Live(old(sessions), expired)
    {
      var ahead := sessions.Keys;
      while ahead != {}
        invariant ahead <= sessions.Keys <= old(sessions).Keys
        invariant forall k :: k in sessions ==> sessions[k] == old(sessions)[k]
        invariant forall k :: k in old(sessions) && k !in ahead ==> (k in sessions <==> old(sessions)[k] !in expired)
        decreases |ahead|
      {
        var it :| it in ahead;
        ahead := ahead - {it};
        if sessions[it] in expired {
          sessions := sessions - {it};
        }
      }
    }
  }
}
