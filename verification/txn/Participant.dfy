/**
 A shard's side of two-phase commit: the transactions prepared but not resolved, and the row keys
 they lock.
 */
module TxnParticipants {
  import opened Options

  type TxnId = nat

  datatype Staged = Staged(keys: seq<string>, commands: seq<string>)

  datatype Locks = Locks(pending: map<TxnId, Staged>, locked: set<string>)

  /** None is a yes vote, or a success. */
  datatype Refusal = KeyLocked(key: string) | UnknownTxn(txn: TxnId)

  const NO_LOCKS: Locks := Locks(map[], {})

  function KeySet(keys: seq<string>): set<string> { set k | k in keys }

  function FirstLocked(locked: set<string>, keys: seq<string>): (r: Option<string>)
    ensures r.Some? ==> r.value in keys && r.value in locked
    ensures r.None? ==> KeySet(keys) !! locked
    decreases |keys|
  {
    if keys == [] then None else if keys[0] in locked then Some(keys[0]) else FirstLocked(locked, keys[1..])
  }

  function Prepare(s: Locks, txn: TxnId, keys: seq<string>, commands: seq<string>): (Locks, Option<Refusal>) {
    if txn in s.pending then (s, None)
    else
      match FirstLocked(s.locked, keys)
      case Some(key) => (s, Some(KeyLocked(key)))
      case None => (Locks(s.pending[txn := Staged(keys, commands)], s.locked + KeySet(keys)), None)
  }

  /** What COMMIT and ABORT both do to a pending transaction. */
  function Resolve(s: Locks, txn: TxnId): Locks
    requires txn in s.pending
  {
    Locks(s.pending - {txn}, s.locked - KeySet(s.pending[txn].keys))
  }

  function Abort(s: Locks, txn: TxnId): Locks { if txn in s.pending then Resolve(s, txn) else s }

  // ------------------------------------------------------------------------------------------
  // The lock invariant
  // ------------------------------------------------------------------------------------------

  /** The locked keys are the disjoint union of the key sets of the pending transactions. */
  ghost predicate Exact(s: Locks) {
    && (forall k :: k in s.locked <==> exists t :: t in s.pending && k in s.pending[t].keys)
    && (forall t, u {:trigger s.pending[t], s.pending[u]} | t in s.pending && u in s.pending && t != u ::
          KeySet(s.pending[t].keys) !! KeySet(s.pending[u].keys))
  }

  lemma NoLocksExact()
    ensures Exact(NO_LOCKS)
  {
  }

  lemma PrepareKeepsExact(s: Locks, txn: TxnId, keys: seq<string>, commands: seq<string>)
    requires Exact(s)
    ensures Exact(Prepare(s, txn, keys, commands).0)
  {
    var s' := Prepare(s, txn, keys, commands).0;
    if s' != s {
      forall k ensures k in s'.locked <==> exists t :: t in s'.pending && k in s'.pending[t].keys {
        if k in keys {
          assert txn in s'.pending && k in s'.pending[txn].keys;
        } else if k in s.locked {
          var t :| t in s.pending && k in s.pending[t].keys;
          assert t in s'.pending && s'.pending[t] == s.pending[t];
        }
      }
      forall t, u | t in s'.pending && u in s'.pending && t != u ensures KeySet(s'.pending[t].keys) !! KeySet(s'.pending[u].keys) {
        LockedByPending(s, t);
        LockedByPending(s, u);
      }
    }
  }

  lemma LockedByPending(s: Locks, t: TxnId)
    requires Exact(s)
    ensures t in s.pending ==> KeySet(s.pending[t].keys) <= s.locked
  {
  }

  /** Releasing one transaction's keys releases no other's, because they are disjoint. */
  lemma ResolveKeepsExact(s: Locks, txn: TxnId)
    requires Exact(s) && txn in s.pending
    ensures Exact(Resolve(s, txn))
    ensures forall t :: t in s.pending && t != txn ==> KeySet(s.pending[t].keys) <= Resolve(s, txn).locked
  {
    var s' := Resolve(s, txn);
    forall t | t in s.pending && t != txn ensures KeySet(s.pending[t].keys) <= s'.locked {
      LockedByPending(s, t);
      assert KeySet(s.pending[t].keys) !! KeySet(s.pending[txn].keys);
    }
    forall k ensures k in s'.locked <==> exists t :: t in s'.pending && k in s'.pending[t].keys {
      if k in s'.locked {
        var t :| t in s.pending && k in s.pending[t].keys;
        assert t != txn;
        assert t in s'.pending && s'.pending[t] == s.pending[t];
      }
      if t :| t in s'.pending && k in s'.pending[t].keys {
        assert s'.pending[t] == s.pending[t];
        assert k in KeySet(s.pending[t].keys);
      }
    }
    forall t, u | t in s'.pending && u in s'.pending && t != u ensures KeySet(s'.pending[t].keys) !! KeySet(s'.pending[u].keys) {
      assert s'.pending[t] == s.pending[t] && s'.pending[u] == s.pending[u];
    }
  }

  /** A no vote locks nothing; and there is one exactly when a key of a new transaction is taken. */
  lemma VotesNoIff(s: Locks, txn: TxnId, keys: seq<string>, commands: seq<string>)
    requires Exact(s)
    ensures var (s', refusal) := Prepare(s, txn, keys, commands);
            && (refusal.Some? <==> txn !in s.pending && exists t, k :: t in s.pending && k in s.pending[t].keys && k in keys)
            && (refusal.Some? ==> s' == s)
            && (refusal.None? ==> txn in s'.pending && KeySet(s'.pending[txn].keys) <= s'.locked)
  {
    var (s', refusal) := Prepare(s, txn, keys, commands);
    PrepareKeepsExact(s, txn, keys, commands);
    LockedByPending(s', txn);
    if refusal.Some? {
      var k := refusal.value.key;
      var t :| t in s.pending && k in s.pending[t].keys;
    }
    if t, k :| t in s.pending && k in s.pending[t].keys && k in keys {
      assert k in s.locked && k in KeySet(keys);
    }
  }

  // ------------------------------------------------------------------------------------------
  // The object
  // ------------------------------------------------------------------------------------------

  lemma FirstLockedTurn(locked: set<string>, keys: seq<string>, i: nat)
    requires i < |keys|
    ensures FirstLocked(locked, keys[i..]) == if keys[i] in locked then Some(keys[i]) else FirstLocked(locked, keys[i + 1..])
  {
    assert keys[i..][1..] == keys[i + 1..];
  }

  lemma KeySetAppend(keys: seq<string>, i: nat)
    requires i < |keys|
    ensures KeySet(keys[..i + 1]) == KeySet(keys[..i]) + {keys[i]}
  {
    assert keys[..i + 1] == keys[..i] + [keys[i]];
  }

  class TxnParticipant {
    var pending: map<TxnId, Staged>
    var lockedKeys: set<string>

    ghost function View(): Locks
      reads this
    {
      Locks(pending, lockedKeys)
    }

    constructor ()
      ensures View() == NO_LOCKS
    {
      pending := map[];
      lockedKeys := {};
    }

    method DoPrepare(txn: TxnId, keys: seq<string>, commands: seq<string>) returns (refusal: Option<Refusal>)
      modifies this
      ensures (View(), refusal) == Prepare(old(View()), txn, keys, commands)
    {
      hide FirstLocked, KeySet;
      if txn in pending { return None; }
      var i := 0;
      assert keys[0..] == keys;
      while i < |keys|
        invariant 0 <= i <= |keys| && View() == old(View())
        invariant FirstLocked(lockedKeys, keys[i..]) == FirstLocked(lockedKeys, keys)
      {
        FirstLockedTurn(lockedKeys, keys, i);
        if keys[i] in lockedKeys { return Some(KeyLocked(keys[i])); }
        i := i + 1;
      }
      NothingLocked(lockedKeys, keys[i..]);
      i := 0;
      NoKeys(keys);
      while i < |keys|
        invariant 0 <= i <= |keys|
        invariant lockedKeys == old(lockedKeys) + KeySet(keys[..i]) && pending == old(pending)
      {
        KeySetAppend(keys, i);
        lockedKeys := lockedKeys + {keys[i]};
        i := i + 1;
      }
      assert keys[..i] == keys;
      pending := pending[txn := Staged(keys, commands)];
      return None;
    }

    method ReleaseLocks(keys: seq<string>)
      modifies this`lockedKeys
      ensures lockedKeys == old(lockedKeys) - KeySet(keys)
    {
      hide KeySet;
      var i := 0;
      NoKeys(keys);
      while i < |keys|
        invariant 0 <= i <= |keys|
        invariant lockedKeys == old(lockedKeys) - KeySet(keys[..i])
      {
        KeySetAppend(keys, i);
        lockedKeys := lockedKeys - {keys[i]};
        i := i + 1;
      }
      assert keys[..i] == keys;
    }

    method DoAbort(txn: TxnId)
      modifies this
      ensures View() == Abort(old(View()), txn)
    {
      if txn !in pending { return; }
      ReleaseLocks(pending[txn].keys);
      pending := pending - {txn};
    }

    /** The part of COMMIT before the staged commands run; they are returned, to be run in order. */
    method BeginCommit(txn: TxnId) returns (r: Option<seq<string>>)
      modifies this
      ensures r.Some? <==> txn in old(pending)
      ensures r.Some? ==> View() == Resolve(old(View()), txn) && r.value == old(pending)[txn].commands
      ensures r.None? ==> View() == old(View())
    {
      if txn !in pending { return None; }
      var staged := pending[txn];
      pending := pending - {txn};
      ReleaseLocks(staged.keys);
      return Some(staged.commands);
    }
  }

  lemma NoKeys(keys: seq<string>)
    ensures KeySet(keys[..0]) == {}
  {
  }

  lemma NothingLocked(locked: set<string>, keys: seq<string>)
    requires keys == []
    ensures FirstLocked(locked, keys) == None
  {
  }
}
