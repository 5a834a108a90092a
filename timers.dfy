/** The timers behind the notification registry.

    The browser's timer table is modelled as a map from handle to the timer
    it will run: `setTimeout` stores a new timer under the next handle and
    returns that handle, `clearTimeout` removes a handle's timer. The
    registry `notificationTimeouts` is a map from a notification key to the
    handle last stored under it. */
module Timers {

  /** A pending timer: the minute it will fire at and the key of the
      notification it will show. */
  datatype Timer = Timer(fireAt: int, key: string)

  /** One `setTimeout` the scheduler asks for, and the key it records the
      handle under. */
  datatype Request = Request(key: string, fireAt: int)

  /** The registry, the pending timers and the handle the next `setTimeout`
      returns. */
  datatype TimerState = TimerState(registry: map<string, nat>, pending: map<nat, Timer>, next: nat)

  /** Handles are handed out in increasing order, so every pending handle and
      every recorded handle is below the next one. */
  predicate HandlesFresh(t: TimerState) {
    && (forall h :: h in t.pending ==> h < t.next)
    && (forall k :: k in t.registry ==> t.registry[k] < t.next)
  }

  /** Every recorded handle names a pending timer of the same key. */
  predicate Tracked(t: TimerState) {
    forall k :: k in t.registry ==> t.registry[k] in t.pending && t.pending[t.registry[k]].key == k
  }

  /** Handle `h` names the pending timer `timer`. */
  predicate PendingAt(t: TimerState, h: nat, timer: Timer) {
    h in t.pending && t.pending[h] == timer
  }

  /** Handle `h` is recorded in the registry under some key. */
  predicate Recorded(t: TimerState, h: nat) {
    h in t.registry.Values
  }

  /** `setTimeout` followed by `notificationTimeouts.set(key, handle)`: a
      handle recorded earlier under the same key is overwritten, and its
      timer stays pending. */
  function Arm(t: TimerState, r: Request): TimerState {
    TimerState(t.registry[r.key := t.next], t.pending[t.next := Timer(r.fireAt, r.key)], t.next + 1)
  }

  /** Arming takes the next handle, stores the request's timer under it and
      records it under the request's key; every other timer and every other
      key keeps its value. */
  lemma ArmEffect(t: TimerState, r: Request)
    ensures var u := Arm(t, r);
            && u.next == t.next + 1
            && u.pending.Keys == t.pending.Keys + {t.next} && u.pending[t.next] == Timer(r.fireAt, r.key)
            && (forall h :: h in t.pending && h != t.next ==> u.pending[h] == t.pending[h])
            && u.registry.Keys == t.registry.Keys + {r.key} && u.registry[r.key] == t.next
            && (forall k :: k in t.registry && k != r.key ==> u.registry[k] == t.registry[k])
  {
  }

  /** The requests armed one after the other. */
  function ArmAll(t: TimerState, rs: seq<Request>): TimerState
    decreases |rs|
  {
    if rs == [] then t else Arm(ArmAll(t, rs[..|rs| - 1]), rs[|rs| - 1])
  }

  /** `clearAllNotifications`: every recorded handle is cleared, then the
      registry is emptied. Timers whose handles are no longer recorded stay
      pending. */
  function CancelAll(t: TimerState): (u: TimerState)
    ensures u.registry == map[] && u.next == t.next
    ensures forall h :: h in u.pending <==> h in t.pending && h !in t.registry.Values
    ensures forall h :: h in u.pending ==> u.pending[h] == t.pending[h]
  {
    TimerState(map[], t.pending - t.registry.Values, t.next)
  }

  /** Clearing handles one at a time clears the set of them. */
  lemma ClearOneMore(pending: map<nat, Timer>, cleared: set<nat>, h: nat)
    ensures (pending - cleared) - {h} == pending - (cleared + {h})
  {
  }

  /** The last index of a request with key `k`, if any. */
  function LastWith(rs: seq<Request>, k: string): (i: int)
    ensures -1 <= i < |rs|
    ensures i >= 0 ==> rs[i].key == k && forall j :: i < j < |rs| ==> rs[j].key != k
    ensures i < 0 ==> forall j :: 0 <= j < |rs| ==> rs[j].key != k
    decreases |rs|
  {
    if rs == [] then -1
    else if rs[|rs| - 1].key == k then |rs| - 1
    else LastWith(rs[..|rs| - 1], k)
  }

  lemma {:induction false} ArmAllAppend(t: TimerState, a: seq<Request>, b: seq<Request>)
    ensures ArmAll(t, a + b) == ArmAll(ArmAll(t, a), b)
    decreases |b|
  {
    if b == [] {
      assert a + b == a;
    } else {
      assert (a + b)[..|a + b| - 1] == a + b[..|b| - 1];
      ArmAllAppend(t, a, b[..|b| - 1]);
    }
  }

  /** Arming one more request is one more `Arm`. */
  lemma ArmAllSnoc(t: TimerState, rs: seq<Request>, r: Request)
    ensures ArmAll(t, rs + [r]) == Arm(ArmAll(t, rs), r)
  {
    assert (rs + [r])[..|rs + [r]| - 1] == rs;
  }

  /** Arming a list of requests uses one fresh handle per request, in order,
      and each new timer carries its request's fire time and key; earlier
      timers are untouched. */
  lemma {:induction false} ArmAllHandles(t: TimerState, rs: seq<Request>)
    ensures var u := ArmAll(t, rs);
            && u.next == t.next + |rs|
            && (forall h :: h in u.pending <==> h in t.pending || t.next <= h < t.next + |rs|)
            && (forall i :: 0 <= i < |rs| ==> u.pending[t.next + i] == Timer(rs[i].fireAt, rs[i].key))
            && (forall h :: h in t.pending && h < t.next ==> u.pending[h] == t.pending[h])
    decreases |rs|
  {
    if rs != [] {
      var init := rs[..|rs| - 1];
      ArmAllHandles(t, init);
      ArmEffect(ArmAll(t, init), rs[|rs| - 1]);
      forall i | 0 <= i < |rs| - 1 ensures ArmAll(t, rs).pending[t.next + i] == Timer(rs[i].fireAt, rs[i].key) {
        assert rs[i] == init[i];
      }
    }
  }

  /** The registry records, for a key requested, the handle of the last
      request with that key, and keeps a key not requested. */
  lemma {:induction false} ArmAllKey(t: TimerState, rs: seq<Request>, k: string)
    ensures var u := ArmAll(t, rs);
            && (k in u.registry <==> k in t.registry || LastWith(rs, k) >= 0)
            && (LastWith(rs, k) >= 0 ==> u.registry[k] == t.next + LastWith(rs, k))
            && (k in t.registry && LastWith(rs, k) < 0 ==> u.registry[k] == t.registry[k])
    decreases |rs|
  {
    if rs != [] {
      var init := rs[..|rs| - 1];
      ArmAllKey(t, init, k);
      ArmAllHandles(t, init);
      ArmEffect(ArmAll(t, init), rs[|rs| - 1]);
    }
  }

  /** A fresh state stays fresh and tracked when requests are armed on it. */
  lemma {:induction false} ArmAllKeepsInvariant(t: TimerState, rs: seq<Request>)
    requires HandlesFresh(t) && Tracked(t)
    ensures HandlesFresh(ArmAll(t, rs)) && Tracked(ArmAll(t, rs))
    decreases |rs|
  {
    if rs != [] {
      ArmAllKeepsInvariant(t, rs[..|rs| - 1]);
      ArmEffect(ArmAll(t, rs[..|rs| - 1]), rs[|rs| - 1]);
    }
  }

  /** Cancelling keeps a state fresh and (trivially) tracked, and is
      idempotent: a second cancel changes nothing. */
  lemma CancelAllKeepsInvariant(t: TimerState)
    requires HandlesFresh(t)
    ensures HandlesFresh(CancelAll(t)) && Tracked(CancelAll(t))
    ensures CancelAll(CancelAll(t)) == CancelAll(t)
  {
    var u := CancelAll(t);
    assert u.registry.Values == {};
    assert u.pending - u.registry.Values == u.pending;
  }

  /** Every recorded timer is cancelled, but a timer whose handle was
      overwritten in the registry by a later request with the same key stays
      pending after the next `clearAllNotifications`: nothing can clear it
      any more. */
  lemma DisplacedStayPending(t: TimerState, rs: seq<Request>, i: nat, j: nat)
    requires HandlesFresh(t) && Tracked(t)
    requires i < j < |rs| && rs[i].key == rs[j].key
    ensures !Recorded(ArmAll(t, rs), t.next + i)
    ensures PendingAt(CancelAll(ArmAll(t, rs)), t.next + i, Timer(rs[i].fireAt, rs[i].key))
  {
    var u := ArmAll(t, rs);
    var h := t.next + i;
    var key := rs[i].key;
    ArmAllKeepsInvariant(t, rs);
    ArmAllHandles(t, rs);
    ArmAllKey(t, rs, key);
    assert u.pending[h] == Timer(rs[i].fireAt, key);
    assert u.registry[key] >= t.next + j;
    assert h !in u.registry.Values by {
      forall k | k in u.registry ensures u.registry[k] != h {
        assert u.pending[u.registry[k]].key == k;
      }
    }
    var c := CancelAll(u);
    assert h in c.pending && c.pending[h] == u.pending[h];
  }

  /** The pattern of a re-arm pass: clear everything, then arm. A request
      whose key comes again later in the same pass leaves a timer that is
      not recorded after the pass and survives the next clear. */
  lemma ClearThenArmLeaks(t: TimerState, rs: seq<Request>, i: nat, j: nat)
    requires HandlesFresh(t)
    requires i < j < |rs| && rs[j].key == rs[i].key
    ensures !Recorded(ArmAll(CancelAll(t), rs), t.next + i)
    ensures PendingAt(CancelAll(ArmAll(CancelAll(t), rs)), t.next + i, Timer(rs[i].fireAt, rs[i].key))
  {
    CancelAllKeepsInvariant(t);
    DisplacedStayPending(CancelAll(t), rs, i, j);
  }

  /** Arming requests on an empty registry records exactly the requested
      keys, each with the handle of the last request with that key, which
      names a pending timer with that request's fire time. */
  lemma ArmFromEmpty(t: TimerState, rs: seq<Request>)
    requires t.registry == map[]
    ensures var u := ArmAll(t, rs);
            && (forall k :: k in u.registry <==> exists i :: 0 <= i < |rs| && rs[i].key == k)
            && (forall k :: k in u.registry ==>
                  && LastWith(rs, k) >= 0
                  && u.registry[k] in u.pending
                  && u.pending[u.registry[k]] == Timer(rs[LastWith(rs, k)].fireAt, k))
  {
    ArmAllHandles(t, rs);
    var u := ArmAll(t, rs);
    forall k ensures (k in u.registry <==> exists i :: 0 <= i < |rs| && rs[i].key == k)
                     && (k in u.registry ==>
                           && LastWith(rs, k) >= 0
                           && u.registry[k] in u.pending
                           && u.pending[u.registry[k]] == Timer(rs[LastWith(rs, k)].fireAt, k)) {
      ArmAllKey(t, rs, k);
      if k in u.registry {
        assert rs[LastWith(rs, k)].key == k;
      }
    }
  }

  /** A timer whose handle is the last one recorded for its key is cancelled
      by the next `clearAllNotifications`. */
  lemma LastCancelled(t: TimerState, rs: seq<Request>, i: nat)
    requires i < |rs| && LastWith(rs, rs[i].key) == i
    ensures t.next + i !in CancelAll(ArmAll(t, rs)).pending
  {
    var u := ArmAll(t, rs);
    var k := rs[i].key;
    assert u.registry[k] == t.next + i by {
      ArmAllKey(t, rs, k);
    }
    assert t.next + i in u.registry.Values;
  }

}
