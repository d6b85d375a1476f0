/** The listener registry of the gateway's IPC managers.  The three managers repeat one
    algorithm for different message types; it is modelled once, for any type of tag and
    any type of message. */
module Listeners {

  // ---------------------------------------------------------------------------------
  // The registry as a value: what a locked section does to it

  type Registry<G(==), C> = map<G, seq<C>>

  function At<G, C>(reg: Registry<G, C>, tag: G): seq<C> {
    if tag in reg then reg[tag] else []
  }

  function Add<G, C>(reg: Registry<G, C>, tag: G, listener: C): Registry<G, C> {
    reg[tag := At(reg, tag) + [listener]]
  }

  /** The first index of x, or |s|. */
  function IndexOf<C(==)>(s: seq<C>, x: C): (i: nat)
    ensures i <= |s|
    ensures i < |s| ==> s[i] == x
    ensures forall j :: 0 <= j < i ==> s[j] != x
    ensures x in s ==> i < |s|
  {
    if s == [] || s[0] == x then 0 else 1 + IndexOf(s[1..], x)
  }

  /** Overwrite the first occurrence of x by the last element and drop the last. */
  function SwapRemove<C(==)>(s: seq<C>, x: C): seq<C> {
    var i := IndexOf(s, x);
    if i < |s| then s[i := s[|s| - 1]][..|s| - 1] else s
  }

  function Delete<G, C(==)>(reg: Registry<G, C>, tag: G, listener: C): Registry<G, C> {
    var s := SwapRemove(At(reg, tag), listener);
    if s == [] then reg - {tag} else reg[tag := s]
  }

  predicate Distinct<C(==)>(s: seq<C>) {
    forall i, j :: 0 <= i < j < |s| ==> s[i] != s[j]
  }

  /** Removal takes out the one listener and keeps all the others, in some order. */
  lemma SwapRemoveTakesOut<C>(s: seq<C>, x: C)
    requires Distinct(s)
    ensures var r := SwapRemove(s, x);
            && Distinct(r)
            && (forall y :: y in r <==> y in s && y != x)
            && |r| == if x in s then |s| - 1 else |s|
  {
    var i, n, r := IndexOf(s, x), |s|, SwapRemove(s, x);
    if i < n {
      assert forall j :: 0 <= j < n - 1 ==> r[j] == if j == i then s[n - 1] else s[j];
      forall y | y in s && y != x ensures y in r {
        var j :| 0 <= j < n && s[j] == y;
        if j == n - 1 { assert r[i] == y; } else { assert r[j] == y; }
      }
    }
  }

  /** A tag key exists exactly when its list is non-empty, and a listener is registered
      under one tag, once. */
  ghost predicate WellFormed<G(!new), C>(reg: Registry<G, C>) {
    && (forall t :: t in reg ==> reg[t] != [] && Distinct(reg[t]))
    && (forall t, u, i, j | t in reg && u in reg && 0 <= i < |reg[t]| && 0 <= j < |reg[u]| ::
          reg[t][i] == reg[u][j] ==> t == u)
  }

  ghost predicate Registered<G(!new), C>(reg: Registry<G, C>, c: C) {
    exists t :: t in reg && c in reg[t]
  }

  lemma AddKeeps<G(!new), C>(reg: Registry<G, C>, tag: G, c: C)
    requires WellFormed(reg) && !Registered(reg, c)
    ensures WellFormed(Add(reg, tag, c))
    ensures forall t, x :: x in At(Add(reg, tag, c), t) <==> x in At(reg, t) || (t == tag && x == c)
  {
    var s := At(reg, tag);
    assert forall x :: x in s + [c] <==> x in s || x == c;
    assert Distinct(s + [c]);
  }

  lemma DeleteKeeps<G(!new), C>(reg: Registry<G, C>, tag: G, c: C)
    requires WellFormed(reg)
    ensures WellFormed(Delete(reg, tag, c))
    ensures forall t, x :: x in At(Delete(reg, tag, c), t) <==> x in At(reg, t) && (t != tag || x != c)
    ensures tag in Delete(reg, tag, c) <==> exists x :: x in At(reg, tag) && x != c
  {
    var s := At(reg, tag);
    SwapRemoveTakesOut(s, c);
    var r, reg' := SwapRemove(s, c), Delete(reg, tag, c);
    assert forall t :: t != tag ==> At(reg', t) == At(reg, t);
    assert At(reg', tag) == r;
    if r != [] { assert r[0] in r; }
  }

  // ---------------------------------------------------------------------------------
  // The manager

  /** A buffered Go channel.  Closing a closed channel panics. */
  class Channel<M> {
    const capacity: nat
    var buffer: seq<M>
    var closed: bool

    constructor (capacity: nat)
      ensures this.capacity == capacity && buffer == [] && !closed
    {
      this.capacity, buffer, closed := capacity, [], false;
    }

    method Close() returns (panicked: bool)
      modifies this
      ensures closed && buffer == old(buffer) && panicked == old(closed)
    {
      panicked := closed;
      closed := true;
    }
  }

  /** What a buffer holds once its oldest message, if any, has been received. */
  function AfterReceive<M>(buffer: seq<M>): seq<M> {
    if buffer == [] then [] else buffer[1..]
  }

  class Manager<G(==,!new), M> {
    var managed: map<G, seq<Channel<M>>>

    constructor ()
      ensures Valid() && managed == map[]
    {
      managed := map[];
    }

    /** Every registered channel is open. */
    ghost predicate Valid()
      reads this, set t, c | t in managed && c in managed[t] :: c
    {
      WellFormed(managed) && forall t, c :: t in managed && c in managed[t] ==> !c.closed
    }

    /** The channel is made before the lock is taken, and registered under it. */
    method CreateChannel(tag: G, capacity: nat) returns (result: Channel<M>)
      requires Valid()
      modifies this
      ensures Valid() && fresh(result) && !result.closed && result.buffer == [] && result.capacity == capacity
      ensures managed == Add(old(managed), tag, result)
    {
      result := new Channel(capacity);
      var slice := At(managed, tag);
      AddKeeps(managed, tag, result);
      ghost var was := managed;
      managed := managed[tag := slice + [result]];
      assert forall t, c :: t in managed && c in managed[t] ==> c in At(was, t) || c == result;
    }

    /** Receive one buffered message if there is one, and close the channel.  A closed and
        drained channel is left alone; one closed with messages in it is closed twice. */
    method SafeClose(listener: Channel<M>) returns (panicked: bool)
      modifies listener
      ensures panicked <==> old(listener.closed && listener.buffer != [])
      ensures listener.closed
      ensures listener.buffer == AfterReceive(old(listener.buffer))
    {
      panicked := false;
      if listener.buffer != [] {
        listener.buffer := listener.buffer[1..];
        panicked := listener.Close();
      } else if !listener.closed {
        panicked := listener.Close();
      }
    }

    /** The map afterwards is `Delete`; the listener is closed if it was registered under
        the tag, and nothing happens to any channel otherwise. */
    method DeleteListenerUnsafe(listener: Channel<M>, tag: G) returns (panicked: bool)
      requires Valid()
      modifies this, listener
      ensures !panicked
      ensures Valid() && managed == Delete(old(managed), tag, listener)
      ensures if listener in old(At(managed, tag))
              then listener.closed && listener.buffer == AfterReceive(old(listener.buffer))
              else unchanged(listener)
    {
      panicked := false;
      DeleteKeeps(managed, tag, listener);
      ghost var was := managed;
      var chanSlice := At(managed, tag);
      var idx := 0;
      while idx < |chanSlice|
        invariant idx <= |chanSlice| && chanSlice == At(was, tag) && unchanged(this) && unchanged(listener)
        invariant listener !in chanSlice[..idx] && !panicked
      {
        if chanSlice[idx] == listener {
          assert IndexOf(chanSlice, listener) == idx;
          chanSlice := chanSlice[idx := chanSlice[|chanSlice| - 1]];
          managed := managed[tag := chanSlice[..|chanSlice| - 1]];
          assert managed[tag] == SwapRemove(At(was, tag), listener);
          panicked := SafeClose(listener);
          break;
        }
        idx := idx + 1;
      }
      if At(managed, tag) == [] {
        managed := managed - {tag};
      }
      assert managed == Delete(was, tag, listener);
      assert forall t, c :: t in managed && c in managed[t] ==> c in At(was, t) && (t != tag || c != listener);
    }
  }
}
