/**
 * The timer service (timer.service.ts): named single-shot timers keyed by
 * `<roomId>:<phase>`, each with a stop subject kept in `stopSubjects` so it can be
 * cancelled. The timer itself is asynchronous; here its firing is the explicit
 * step `Expire`, and `pending` records the timers that can still fire, each with
 * the key its expiry callback deletes.
 */
module Timers {
  import opened Wrappers

  /** `startTimer` throws on an empty room id or phase. */
  datatype TimerError = InvalidRoomId

  /** The timer `startTimer` returns: it fires once unless its stop subject emits first. */
  datatype Timer = Timer(key: string, subject: nat, duration: int)

  /**
   * The service's bookkeeping: the stop subject stored per key, the timers that can
   * still fire (subject to key), and how many subjects were created so far.
   */
  datatype TimerTable = TimerTable(
    stopSubjects: map<string, nat>,
    pending: map<nat, string>,
    created: nat)

  const Empty := TimerTable(map[], map[], 0)

  /** The key of a (room, phase) pair: plain concatenation around a colon. */
  function TimerKey(roomId: string, phase: string): (key: string)
    ensures |key| == |roomId| + 1 + |phase|
    ensures key[..|roomId|] == roomId && key[|roomId|] == ':' && key[|roomId| + 1..] == phase
  {
    roomId + ":" + phase
  }

  /** Distinct (room, phase) pairs can share a key, so their timers replace each other. */
  lemma KeysCollide()
    ensures ("1:day", "vote") != ("1", "day:vote")
    ensures TimerKey("1:day", "vote") == TimerKey("1", "day:vote")
  {
  }

  /** Every stored subject belongs to a timer that can still fire under that key. */
  predicate Consistent(t: TimerTable) {
    && (forall k :: k in t.stopSubjects ==> t.stopSubjects[k] in t.pending && t.pending[t.stopSubjects[k]] == k)
    && (forall s :: s in t.pending ==> s < t.created)
  }

  /** `hasTimer`. */
  predicate Has(t: TimerTable, roomId: string, phase: string)
    ensures Has(t, roomId, phase) <==> TimerKey(roomId, phase) in t.stopSubjects
    ensures Has(t, roomId, phase) && Consistent(t) ==>
      var s := t.stopSubjects[TimerKey(roomId, phase)];
      s in t.pending && t.pending[s] == TimerKey(roomId, phase)
  {
    TimerKey(roomId, phase) in t.stopSubjects
  }

  /**
   * `cancelTimer`: a stored key is removed and its timer stopped; every other key keeps
   * its subject. An absent key changes nothing (the source only logs a warning).
   */
  function Cancel(t: TimerTable, roomId: string, phase: string): (t': TimerTable)
    requires Consistent(t)
    ensures Consistent(t')
    ensures !Has(t', roomId, phase)
    ensures t'.created == t.created
    ensures forall k :: k != TimerKey(roomId, phase) ==>
      (k in t'.stopSubjects <==> k in t.stopSubjects) && (k in t.stopSubjects ==> t'.stopSubjects[k] == t.stopSubjects[k])
    ensures Has(t, roomId, phase) ==>
      var s := t.stopSubjects[TimerKey(roomId, phase)];
      s !in t'.pending && forall s' :: s' != s ==> (s' in t'.pending <==> s' in t.pending)
    ensures forall s :: s in t'.pending ==> s in t.pending && t'.pending[s] == t.pending[s]
    ensures !Has(t, roomId, phase) ==> t' == t
  {
    var key := TimerKey(roomId, phase);
    if key in t.stopSubjects then
      TimerTable(t.stopSubjects - {key}, t.pending - {t.stopSubjects[key]}, t.created)
    else
      t
  }

  /**
   * `startTimer` as written: rejects an empty room id or phase without touching
   * anything; otherwise cancels the timer under the key only when the bare roomId is
   * itself a key, then stores a fresh subject under the key.
   */
  function Start(t: TimerTable, roomId: string, phase: string, duration: int): (r: (Result<Timer, TimerError>, TimerTable))
    requires Consistent(t)
    ensures Consistent(r.1)
    ensures roomId == "" || phase == "" ==> r.0 == Failure(InvalidRoomId) && r.1 == t
    ensures roomId != "" && phase != "" ==>
      var key := TimerKey(roomId, phase);
      && r.0 == Success(Timer(key, t.created, duration))
      && Has(r.1, roomId, phase)
      && r.1.stopSubjects == t.stopSubjects[key := t.created]
      && t.created !in t.pending && t.created in r.1.pending && r.1.pending[t.created] == key
      && (forall s :: s in r.1.pending ==> s == t.created || (s in t.pending && r.1.pending[s] == t.pending[s]))
      && (Has(t, roomId, phase) ==> (t.stopSubjects[key] in r.1.pending <==> roomId !in t.stopSubjects))
      && (forall s :: s in t.pending && (!Has(t, roomId, phase) || s != t.stopSubjects[key]) ==> s in r.1.pending)
  {
    if roomId == "" || phase == "" then
      (Failure(InvalidRoomId), t)
    else
      var key := TimerKey(roomId, phase);
      var cancelled := if roomId in t.stopSubjects then Cancel(t, roomId, phase) else t;
      var stop := cancelled.created;
      (Success(Timer(key, stop, duration)),
       TimerTable(cancelled.stopSubjects[key := stop], cancelled.pending[stop := key], cancelled.created + 1))
  }

  /**
   * A timer fires: a stopped or already fired timer does nothing; otherwise its key is
   * deleted whatever subject is stored under it now.
   */
  function Expired(t: TimerTable, timer: Timer): (t': TimerTable)
    requires Consistent(t)
    requires timer.subject in t.pending ==> t.pending[timer.subject] == timer.key
    ensures Consistent(t')
    ensures timer.subject !in t.pending ==> t' == t
    ensures timer.subject in t.pending ==>
      && timer.key !in t'.stopSubjects && timer.subject !in t'.pending
      && (forall k :: k != timer.key ==> (k in t'.stopSubjects <==> k in t.stopSubjects))
      && (forall s :: s != timer.subject ==> (s in t'.pending <==> s in t.pending))
    ensures forall k :: k in t'.stopSubjects ==> k in t.stopSubjects && t'.stopSubjects[k] == t.stopSubjects[k]
    ensures forall s :: s in t'.pending ==> s in t.pending && t'.pending[s] == t.pending[s]
    ensures t'.created == t.created
  {
    if timer.subject in t.pending then
      TimerTable(t.stopSubjects - {timer.key}, t.pending - {timer.subject}, t.created)
    else
      t
  }

  /** Every timer that can fire is the one stored under its key: at most one live timer per key. */
  predicate OnePerKey(t: TimerTable) {
    && Consistent(t)
    && forall s :: s in t.pending ==> t.pending[s] in t.stopSubjects && t.stopSubjects[t.pending[s]] == s
  }

  lemma OnePerKeyUnique(t: TimerTable, s1: nat, s2: nat)
    requires OnePerKey(t) && s1 in t.pending && s2 in t.pending && t.pending[s1] == t.pending[s2]
    ensures s1 == s2
  {
  }

  /** `startTimer` with the replace check on the key, as its comment intends. */
  function StartIntended(t: TimerTable, roomId: string, phase: string, duration: int): (r: (Result<Timer, TimerError>, TimerTable))
    requires Consistent(t)
    ensures Consistent(r.1)
    ensures OnePerKey(t) ==> OnePerKey(r.1)
    ensures roomId == "" || phase == "" ==> r.0 == Failure(InvalidRoomId) && r.1 == t
    ensures roomId != "" && phase != "" ==>
      && r.0 == Success(Timer(TimerKey(roomId, phase), t.created, duration))
      && Has(r.1, roomId, phase) && r.1.stopSubjects == t.stopSubjects[TimerKey(roomId, phase) := t.created]
  {
    if roomId == "" || phase == "" then
      (Failure(InvalidRoomId), t)
    else
      var key := TimerKey(roomId, phase);
      var cancelled := Cancel(t, roomId, phase);
      var stop := cancelled.created;
      (Success(Timer(key, stop, duration)),
       TimerTable(cancelled.stopSubjects[key := stop], cancelled.pending[stop := key], cancelled.created + 1))
  }

  /** Cancelling and firing keep at most one live timer per key. */
  lemma CancelExpireKeepOnePerKey(t: TimerTable, roomId: string, phase: string, timer: Timer)
    requires OnePerKey(t)
    requires timer.subject in t.pending ==> t.pending[timer.subject] == timer.key
    ensures OnePerKey(Cancel(t, roomId, phase))
    ensures OnePerKey(Expired(t, timer))
  {
  }

  /**
   * As written, starting the same (room, phase) twice leaves the first timer live: two
   * timers can fire for one key, and when the first fires it deletes the second's entry,
   * so `hasTimer` turns false and `cancelTimer` can no longer stop the second.
   */
  lemma RestartLeavesStaleTimer()
    ensures var t1 := Start(Empty, "1", "day", 1000).1;
      var t2 := Start(t1, "1", "day", 1000).1;
      var t3 := Expired(t2, Timer("1:day", 0, 1000));
      && OnePerKey(t1) && !OnePerKey(t2)
      && 0 in t2.pending && 1 in t2.pending && t2.pending[0] == t2.pending[1]
      && !Has(t3, "1", "day") && 1 in t3.pending
      && Cancel(t3, "1", "day") == t3
  {
    assert TimerKey("1", "day") == "1:day";
    var t1 := Start(Empty, "1", "day", 1000).1;
    assert t1.stopSubjects == map["1:day" := 0];
    assert "1" !in t1.stopSubjects;
    var t2 := Start(t1, "1", "day", 1000).1;
    assert t2.pending == map[0 := "1:day", 1 := "1:day"];
  }

  /** With the intended check, the restart stops the first timer. */
  lemma RestartIntendedStopsPrevious()
    ensures var t1 := StartIntended(Empty, "1", "day", 1000).1;
      var t2 := StartIntended(t1, "1", "day", 1000).1;
      && OnePerKey(t2) && 0 !in t2.pending && 1 in t2.pending
  {
    assert TimerKey("1", "day") == "1:day";
    var t1 := StartIntended(Empty, "1", "day", 1000).1;
    assert t1.stopSubjects == map["1:day" := 0];
  }

  /** The service object; `pending` stands for the scheduled timers that can still fire. */
  class TimerService {
    var stopSubjects: map<string, nat>
    var pending: map<nat, string>
    var created: nat

    function Table(): TimerTable
      reads this
    {
      TimerTable(stopSubjects, pending, created)
    }

    ghost predicate Valid()
      reads this
    {
      Consistent(Table())
    }

    constructor()
      ensures Valid() && Table() == Empty
    {
      stopSubjects := map[];
      pending := map[];
      created := 0;
    }

    /** `hasTimer`. */
    function HasTimer(roomId: string, phase: string): (b: bool)
      reads this
      ensures b <==> TimerKey(roomId, phase) in stopSubjects
      ensures b && Valid() ==> stopSubjects[TimerKey(roomId, phase)] in pending
    {
      Has(Table(), roomId, phase)
    }

    /** `startTimer`. */
    method StartTimer(roomId: string, phase: string, duration: int) returns (r: Result<Timer, TimerError>)
      requires Valid()
      modifies this
      ensures Valid()
      ensures (r, Table()) == Start(old(Table()), roomId, phase, duration)
    {
      if roomId == "" || phase == "" {
        r := Failure(InvalidRoomId);
        return;
      }
      var key := TimerKey(roomId, phase);
      if roomId in stopSubjects {
        CancelTimer(roomId, phase);
      }
      var stop := created;
      created := created + 1;
      stopSubjects := stopSubjects[key := stop];
      pending := pending[stop := key];
      r := Success(Timer(key, stop, duration));
    }

    /** `cancelTimer`. */
    method CancelTimer(roomId: string, phase: string)
      requires Valid()
      modifies this
      ensures Valid()
      ensures Table() == Cancel(old(Table()), roomId, phase)
    {
      var key := TimerKey(roomId, phase);
      if key in stopSubjects {
        var stop := stopSubjects[key];
        pending := pending - {stop};
        stopSubjects := stopSubjects - {key};
      }
    }

    /** The expiry callback of a timer this service returned. */
    method Expire(timer: Timer)
      requires Valid()
      requires timer.subject in pending ==> pending[timer.subject] == timer.key
      modifies this
      ensures Valid()
      ensures Table() == Expired(old(Table()), timer)
    {
      if timer.subject in pending {
        stopSubjects := stopSubjects - {timer.key};
        pending := pending - {timer.subject};
      }
    }
  }
}
