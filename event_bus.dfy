/**
 * The event emitter (src/services/event-bus.service.js): a map from event
 * name to an ordered list of listeners. Listeners are identified by ids
 * (function identity in the source); calling a listener is recorded as a
 * `Call` in the order the calls happen, since what a listener does is not
 * part of this model.
 */
module EventBus {
  import opened Basics

  const ShowMsg: string := "show-msg"

  datatype Call<T> = Call(listener: nat, data: T)

  /** The listeners of one event, in registration order; none if never subscribed. */
  function ListOf(m: map<string, seq<nat>>, ev: string): seq<nat> {
    if ev in m then m[ev] else []
  }

  /** `on`: append the listener to the event's list, creating the list if
      absent. */
  function Subscribed(m: map<string, seq<nat>>, ev: string, l: nat): (r: map<string, seq<nat>>)
    ensures ev in r && r[ev] == ListOf(m, ev) + [l]
    ensures forall e :: e != ev ==> (e in r <==> e in m) && (e in m ==> r[e] == m[e])
  {
    m[ev := ListOf(m, ev) + [l]]
  }

  /** `list.filter(func => func !== l)`. */
  function Without(s: seq<nat>, l: nat): (r: seq<nat>)
    ensures l !in r
    ensures forall x :: x != l ==> (x in r <==> x in s)
    ensures l !in s ==> r == s
  {
    if s == [] then []
    else
      assert s == [s[0]] + s[1..];
      (if s[0] == l then [] else [s[0]]) + Without(s[1..], l)
  }

  /** Every other listener keeps its number of registrations. */
  lemma {:induction false} WithoutCounts(s: seq<nat>, l: nat)
    ensures multiset(Without(s, l)) == multiset(s)[l := 0]
    decreases |s|
  {
    if s != [] {
      WithoutCounts(s[1..], l);
      assert s == [s[0]] + s[1..];
    }
  }

  /** The remaining listeners keep their relative order. */
  lemma {:induction false} WithoutAppend(a: seq<nat>, b: seq<nat>, l: nat)
    ensures Without(a + b, l) == Without(a, l) + Without(b, l)
    decreases |a|
  {
    if a == [] {
      assert a + b == b;
    } else {
      ConsAppend(a, b);
      WithoutAppend(a[1..], b, l);
      var head := if a[0] == l then [] else [a[0]];
      assert Without(a + b, l) == head + Without(a[1..] + b, l);
      AppendAssoc(head, Without(a[1..], l), Without(b, l));
    }
  }

  /** The unsubscribe closure that `on` returns; the event's list exists by then. */
  function Unsubscribed(m: map<string, seq<nat>>, ev: string, l: nat): (r: map<string, seq<nat>>)
    requires ev in m
    ensures ev in r && r[ev] == Without(m[ev], l)
    ensures forall e :: e != ev ==> (e in r <==> e in m) && (e in m ==> r[e] == m[e])
  {
    m[ev := Without(m[ev], l)]
  }

  /** Subscribing a new listener and unsubscribing it restores the event's list
      (an empty one if the event had none). */
  lemma SubscribeThenUnsubscribe(m: map<string, seq<nat>>, ev: string, l: nat)
    requires l !in ListOf(m, ev)
    ensures Unsubscribed(Subscribed(m, ev, l), ev, l)[ev] == ListOf(m, ev)
  {
    WithoutAppend(ListOf(m, ev), [l], l);
  }

  /** One call per listener, in order, all with the same data. */
  predicate Delivered<T(==)>(calls: seq<Call<T>>, ls: seq<nat>, data: T) {
    |calls| == |ls| && forall i :: 0 <= i < |ls| ==> calls[i] == Call(ls[i], data)
  }

  class Emitter<T(==)> {
    var listenersMap: map<string, seq<nat>>

    constructor ()
      ensures listenersMap == map[]
    {
      listenersMap := map[];
    }

    method On(ev: string, l: nat)
      modifies this
      ensures listenersMap == Subscribed(old(listenersMap), ev, l)
    {
      var list := if ev in listenersMap then listenersMap[ev] + [l] else [l];
      assert list == ListOf(listenersMap, ev) + [l];
      listenersMap := listenersMap[ev := list];
    }

    method Unsubscribe(ev: string, l: nat)
      requires ev in listenersMap
      modifies this
      ensures listenersMap == Unsubscribed(old(listenersMap), ev, l)
    {
      listenersMap := listenersMap[ev := Without(listenersMap[ev], l)];
    }

    /** `emit`: nothing for an event without a list, otherwise every listener
        in order with the same data. */
    method Emit(ev: string, data: T) returns (calls: seq<Call<T>>)
      ensures ev !in listenersMap ==> calls == []
      ensures Delivered(calls, ListOf(listenersMap, ev), data)
    {
      calls := [];
      if ev !in listenersMap {
        return;
      }
      var ls := listenersMap[ev];
      var i := 0;
      while i < |ls|
        invariant 0 <= i <= |ls|
        invariant Delivered(calls, ls[..i], data)
      {
        calls := calls + [Call(ls[i], data)];
        i := i + 1;
      }
      assert ls[..i] == ls;
    }
  }

  datatype MsgType = Success | Error | General | Loading | Confirm

  datatype Msg = Msg(txt: string, kind: MsgType)

  /** `showUserMsg`. */
  method ShowUserMsg(bus: Emitter<Msg>, msg: Msg) returns (calls: seq<Call<Msg>>)
    ensures Delivered(calls, ListOf(bus.listenersMap, ShowMsg), msg)
  {
    calls := bus.Emit(ShowMsg, msg);
  }

  /** `showSuccessMsg`: a success message to every show-msg listener. */
  method ShowSuccessMsg(bus: Emitter<Msg>, txt: string) returns (calls: seq<Call<Msg>>)
    ensures Delivered(calls, ListOf(bus.listenersMap, ShowMsg), Msg(txt, Success))
  {
    calls := ShowUserMsg(bus, Msg(txt, Success));
  }

  /** `showErrorMsg`: an error message to every show-msg listener. */
  method ShowErrorMsg(bus: Emitter<Msg>, txt: string) returns (calls: seq<Call<Msg>>)
    ensures Delivered(calls, ListOf(bus.listenersMap, ShowMsg), Msg(txt, Error))
  {
    calls := ShowUserMsg(bus, Msg(txt, Error));
  }

  method ShowGeneralMsg(bus: Emitter<Msg>, txt: string) returns (calls: seq<Call<Msg>>)
    ensures Delivered(calls, ListOf(bus.listenersMap, ShowMsg), Msg(txt, General))
  {
    calls := ShowUserMsg(bus, Msg(txt, General));
  }

  method ShowLoadingMsg(bus: Emitter<Msg>) returns (calls: seq<Call<Msg>>)
    ensures Delivered(calls, ListOf(bus.listenersMap, ShowMsg), Msg("Loading...", Loading))
  {
    calls := ShowUserMsg(bus, Msg("Loading...", Loading));
  }

  /** `confirmUserMsg` and its alias `confirmMsg`. */
  method ConfirmMsg(bus: Emitter<Msg>, txt: string) returns (calls: seq<Call<Msg>>)
    ensures Delivered(calls, ListOf(bus.listenersMap, ShowMsg), Msg(txt, Confirm))
  {
    calls := bus.Emit(ShowMsg, Msg(txt, Confirm));
  }

}
