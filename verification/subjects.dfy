/**
 * Observer lists. Notification is modelled as the ordered sequence of
 * deliveries it makes: one per registered observer, in list order.
 */
module Subjects {

  datatype Delivery<T, E> = Delivery(observer: T, event: E)

  /** One event sent to every observer, in registration order. */
  function Broadcast<T, E>(observers: seq<T>, e: E): (r: seq<Delivery<T, E>>)
    ensures |r| == |observers|
    ensures forall i :: 0 <= i < |r| ==> r[i].observer == observers[i] && r[i].event == e
  {
    if observers == [] then [] else [Delivery(observers[0], e)] + Broadcast(observers[1..], e)
  }

  /** The sensors' `register`: appends, duplicates allowed. */
  function Register<T>(observers: seq<T>, o: T): (r: seq<T>)
    ensures r == observers + [o]
  {
    observers + [o]
  }

  /** A newly registered observer is notified last. */
  lemma {:induction false} RegisteredIsNotifiedLast<T, E>(observers: seq<T>, o: T, e: E)
    ensures Broadcast(Register(observers, o), e) == Broadcast(observers, e) + [Delivery(o, e)]
  {
  }

  /**
   * Unregistering right after registering gives the observer list back when
   * the observer was new, and the same multiset of observers in any case.
   */
  lemma RegisterThenUnregister<T>(observers: seq<T>, o: T)
    ensures multiset(RemoveFirst(Register(observers, o), o)) == multiset(observers)
    ensures o !in observers ==> RemoveFirst(Register(observers, o), o) == observers
  {
    if o !in observers {
      var r := Register(observers, o);
      assert FirstIndex(r, o) == |observers| by {
        assert r[|observers|] == o;
        assert r[..|observers|] == observers;
      }
      assert r[..|observers|] == observers;
    }
  }

  /** The index of the first occurrence of `o`. */
  function FirstIndex<T(==)>(s: seq<T>, o: T): (i: nat)
    requires o in s
    ensures i < |s| && s[i] == o && o !in s[..i]
  {
    if s[0] == o then 0 else FirstIndex(s[1..], o) + 1
  }

  /** Java's `List.remove(Object)`: drops the first occurrence, keeping the order of the rest. */
  function RemoveFirst<T(==)>(observers: seq<T>, o: T): (r: seq<T>)
    ensures o !in observers ==> r == observers
    ensures o in observers ==> |r| == |observers| - 1
    ensures multiset(r) == multiset(observers) - multiset{o}
    ensures o in observers ==>
      var i := FirstIndex(observers, o);
      forall k :: 0 <= k < |r| ==> r[k] == if k < i then observers[k] else observers[k + 1]
  {
    if o !in observers then observers
    else
      var i := FirstIndex(observers, o);
      assert observers == observers[..i] + [o] + observers[i + 1..];
      observers[..i] + observers[i + 1..]
  }

  predicate NoDuplicates<T(==)>(s: seq<T>) {
    forall i, j :: 0 <= i < j < |s| ==> s[i] != s[j]
  }

  /** The robot's `addRobotObserver`: appends only observers not yet present. */
  function AddUnique<T(==)>(observers: seq<T>, o: T): (r: seq<T>)
    ensures o in r
    ensures o in observers ==> r == observers
    ensures o !in observers ==> r == observers + [o]
    ensures NoDuplicates(observers) ==> NoDuplicates(r)
  {
    if o in observers then observers else observers + [o]
  }

  /** On a list without duplicates, removal really removes the observer and keeps it duplicate-free. */
  lemma RemoveFromDistinct<T>(observers: seq<T>, o: T)
    requires NoDuplicates(observers)
    ensures o !in RemoveFirst(observers, o)
    ensures NoDuplicates(RemoveFirst(observers, o))
  {
    var r := RemoveFirst(observers, o);
    if o in observers {
      var i := FirstIndex(observers, o);
      forall k | 0 <= k < |r|
        ensures r[k] != o
      {
        if k < i {
          assert observers[..i][k] == r[k];
        } else {
          assert r[k] == observers[k + 1];
        }
      }
    }
  }
}
