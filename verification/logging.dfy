/**
 * The observer list of `Subject` (Logging/LoggingObserver.cpp).
 *
 * Observers are identified by a number; a null observer pointer is `None`.
 * What an observer does on `update` (appending to a log file) is left out:
 * notifying returns the observers updated, in order.
 */
module Logging {
  import opened Wrappers

  type ObserverId = nat

  /** No observer occurs twice. */
  predicate NoDuplicates(s: seq<ObserverId>)
  {
    forall i, j :: 0 <= i < j < |s| ==> s[i] != s[j]
  }

  /** `s` with every occurrence of `o` removed, the rest in order (`std::remove` then `erase`). */
  function Without(s: seq<ObserverId>, o: ObserverId): (r: seq<ObserverId>)
    ensures |r| <= |s|
    ensures forall x :: x in r <==> x in s && x != o
  {
    if s == [] then []
    else if s[0] == o then Without(s[1..], o)
    else [s[0]] + Without(s[1..], o)
  }

  /** `attach`'s effect on a list: the observer is appended unless already present. */
  function Attached(s: seq<ObserverId>, o: ObserverId): (r: seq<ObserverId>)
    ensures o in r && forall x :: x in r <==> x in s || x == o
    ensures NoDuplicates(s) ==> NoDuplicates(r)
  {
    if o in s then s else s + [o]
  }

  /** Attaching each of `os` in turn. */
  function AttachedAll(s: seq<ObserverId>, os: seq<ObserverId>): (r: seq<ObserverId>)
    ensures forall x :: x in r <==> x in s || x in os
    ensures NoDuplicates(s) ==> NoDuplicates(r)
    ensures s <= r
    decreases |os|
  {
    if os == [] then s else AttachedAll(Attached(s, os[0]), os[1..])
  }

  /** Removing an observer drops all its occurrences and no other entry. */
  lemma {:induction false} WithoutIsFilter(s: seq<ObserverId>, o: ObserverId)
    ensures o !in s ==> Without(s, o) == s
    ensures multiset(Without(s, o)) == multiset(s)[o := 0]
    ensures |Without(s, o)| == |s| - multiset(s)[o]
  {
    if s != [] {
      WithoutIsFilter(s[1..], o);
      WithoutAbsent(s, o);
      assert s == [s[0]] + s[1..];
      assert multiset(s) == multiset{s[0]} + multiset(s[1..]);
      if s[0] == o {
        assert Without(s, o) == Without(s[1..], o);
      } else {
        assert Without(s, o) == [s[0]] + Without(s[1..], o);
        assert multiset(Without(s, o)) == multiset{s[0]} + multiset(Without(s[1..], o));
      }
    }
  }

  /** Removing an observer that is not in the list leaves the list as it is. */
  lemma {:induction false} WithoutAbsent(s: seq<ObserverId>, o: ObserverId)
    ensures o !in s ==> Without(s, o) == s
  {
    if s != [] {
      WithoutAbsent(s[1..], o);
      assert s == [s[0]] + s[1..];
    }
  }

  /** Removing an observer keeps a list duplicate-free, and a second removal changes nothing. */
  lemma {:induction false} WithoutKeepsNoDuplicates(s: seq<ObserverId>, o: ObserverId)
    requires NoDuplicates(s)
    ensures NoDuplicates(Without(s, o))
    ensures Without(Without(s, o), o) == Without(s, o)
  {
    if s != [] {
      assert NoDuplicates(s[1..]);
      WithoutKeepsNoDuplicates(s[1..], o);
      WithoutIsFilter(Without(s, o), o);
      if s[0] != o {
        var rest := Without(s[1..], o);
        assert s[0] !in s[1..];
        assert s[0] !in rest;
        forall i, j | 0 <= i < j < |[s[0]] + rest|
          ensures ([s[0]] + rest)[i] != ([s[0]] + rest)[j]
        {
          if i > 0 {
            assert ([s[0]] + rest)[i] == rest[i - 1];
          }
          assert ([s[0]] + rest)[j] == rest[j - 1];
        }
      }
    }
  }

  /** Attaching an observer that is already present, or attaching twice, changes nothing. */
  lemma AttachIdempotent(s: seq<ObserverId>, o: ObserverId)
    ensures Attached(Attached(s, o), o) == Attached(s, o)
    ensures o in s ==> Attached(s, o) == s
    ensures o !in s ==> |Attached(s, o)| == |s| + 1
  {
  }

  /** Detaching right after attaching an absent observer restores the list. */
  lemma {:induction false} DetachUndoesAttach(s: seq<ObserverId>, o: ObserverId)
    requires o !in s
    ensures Without(Attached(s, o), o) == s
  {
    WithoutAppend(s, [o], o);
    WithoutIsFilter(s, o);
  }

  /** Removal works piecewise, so the kept entries stay in their original order. */
  lemma {:induction false} WithoutAppend(a: seq<ObserverId>, b: seq<ObserverId>, o: ObserverId)
    ensures Without(a + b, o) == Without(a, o) + Without(b, o)
  {
    if a != [] {
      assert (a + b)[1..] == a[1..] + b;
      WithoutAppend(a[1..], b, o);
    } else {
      assert a + b == b;
    }
  }

  class Subject {
    var observers: seq<ObserverId>

    /** The list a subject keeps never holds an observer twice. */
    ghost predicate Valid()
      reads this
    {
      NoDuplicates(observers)
    }

    /** `Subject() = default`: no observers. */
    constructor ()
      ensures observers == [] && Valid()
    {
      observers := [];
    }

    /** The copy constructor (Logging/LoggingObserver.cpp:9-11): the same observers. */
    constructor Copy(other: Subject)
      ensures observers == other.observers
    {
      observers := other.observers;
    }

    /** `operator=` (Logging/LoggingObserver.cpp:14-19): takes over the other subject's observers. */
    method Assign(other: Subject)
      modifies this
      ensures observers == old(other.observers)
    {
      if this != other {
        observers := other.observers;
      }
    }

    /**
     * `attach` (Logging/LoggingObserver.cpp:21-28): null is ignored, and an
     * observer is appended only if it is not already in the list.
     */
    method Attach(observer: Option<ObserverId>)
      modifies this
      ensures observer.None? ==> observers == old(observers)
      ensures observer.Some? ==> observers == Attached(old(observers), observer.value)
      ensures old(Valid()) ==> Valid()
    {
      if observer.None? {
        return;
      }
      if observer.value !in observers {
        observers := observers + [observer.value];
      }
    }

    /**
     * `detach` (Logging/LoggingObserver.cpp:30-32): every occurrence of the
     * observer is erased and the others keep their order. The list never
     * holds null, so detaching null changes nothing.
     */
    method Detach(observer: Option<ObserverId>)
      modifies this
      ensures observer.None? ==> observers == old(observers)
      ensures observer.Some? ==> observers == Without(old(observers), observer.value)
      ensures observer.Some? ==> observer.value !in observers
      ensures old(Valid()) ==> Valid()
    {
      if observer.Some? {
        if Valid() {
          WithoutKeepsNoDuplicates(observers, observer.value);
        }
        observers := Without(observers, observer.value);
      }
    }

    /**
     * `notifyObservers(loggable)` (Logging/LoggingObserver.cpp:41-47): one
     * `update` per observer in the list, in list order; returns the observers
     * updated. Nulls are never attached, so none is skipped.
     */
    method NotifyObserversOf() returns (updated: seq<ObserverId>)
      ensures updated == observers
      ensures Valid() ==> forall o :: o in observers ==> multiset(updated)[o] == 1
    {
      updated := [];
      for k := 0 to |observers|
        invariant updated == observers[..k]
      {
        updated := updated + [observers[k]];
      }
      assert observers[..|observers|] == observers;
      if Valid() {
        forall o | o in observers
          ensures multiset(updated)[o] == 1
        {
          OnceInDistinct(observers, o);
        }
      }
    }

    /**
     * `notifyObservers()` (Logging/LoggingObserver.cpp:34-39): notifies only
     * when the subject is itself loggable.
     */
    method NotifyObservers(isLoggable: bool) returns (updated: seq<ObserverId>)
      ensures isLoggable ==> updated == observers
      ensures !isLoggable ==> updated == []
    {
      updated := [];
      if isLoggable {
        updated := NotifyObserversOf();
      }
    }

    /**
     * `propagateObserversTo` (Logging/LoggingObserver.cpp:49-53): attaches
     * each of this subject's observers to the target, in order; the target
     * then has all of them, keeps its own first, and gains no duplicate.
     */
    method PropagateObserversTo(target: Subject)
      modifies target
      ensures target.observers == AttachedAll(old(target.observers), old(observers))
      ensures forall o :: o in old(observers) ==> o in target.observers
      ensures old(target.observers) <= target.observers
      ensures old(target.Valid()) ==> target.Valid()
    {
      var os := observers;
      for k := 0 to |os|
        invariant AttachedAll(target.observers, os[k..]) == AttachedAll(old(target.observers), os)
      {
        assert os[k..][1..] == os[k + 1..];
        target.Attach(Some(os[k]));
      }
      assert os[|os|..] == [];
    }
  }

  /** In a duplicate-free list each member occurs once. */
  lemma {:induction false} OnceInDistinct(s: seq<ObserverId>, o: ObserverId)
    requires NoDuplicates(s) && o in s
    ensures multiset(s)[o] == 1
  {
    assert s == [s[0]] + s[1..];
    assert multiset(s) == multiset{s[0]} + multiset(s[1..]);
    if s[0] == o {
      assert o !in s[1..];
    } else {
      assert NoDuplicates(s[1..]);
      OnceInDistinct(s[1..], o);
    }
  }
}
