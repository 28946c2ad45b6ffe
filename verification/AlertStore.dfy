/** The alert table, and the passes that open and resolve alerts, as transactions over it. */
module AlertStore {
  import opened Wrappers
  import opened Selection
  import opened Alerts

  datatype Resolution = NotFound | AlreadyResolved | Changed

  class Store {
    var rows: Rows

    constructor ()
      ensures rows == map[]
    {
      rows := map[];
    }

    /** `open_or_increment` and the `open` around it. */
    method OpenAlert(s: Sighting)
      modifies this
      ensures rows == Upserted(old(rows), s)
    {
      var c, key := s.condition, KeyOf(s.condition, s.now);
      if key in rows {
        var row := rows[key];
        rows := rows[key := row.(status := Open, severity := c.severity, summary := c.summary, lastSeen := s.now,
                                 occurrences := row.occurrences + 1, acknowledgedBy := None, resolvedBy := None)];
      } else {
        rows := rows[key := Row(Open, c.severity, c.summary, s.now, s.now, 1, None, None)];
      }
    }

    /** `list_active_for_types`, skipping rows locked elsewhere; the order plays no part in what follows. */
    method ListActive(locked: set<DedupKey>) returns (keys: seq<DedupKey>)
      ensures Distinct(keys) && forall k :: k in keys <==> Active(rows, k) && Managed(k) && k !in locked
    {
      keys := [];
      var rest := set k | k in rows && Active(rows, k) && Managed(k) && k !in locked;
      ghost var all := rest;
      while rest != {}
        invariant Distinct(keys) && forall k :: k in keys <==> k in all - rest
        invariant rest <= all
        decreases rest
      {
        var k :| k in rest;
        assert k !in keys;
        keys := keys + [k];
        rest := rest - {k};
      }
    }

    /** `resolve_cleared`. */
    method ResolveCleared(active: set<Identity>, locked: set<DedupKey>) returns (resolved: nat)
      modifies this
      ensures rows == AfterResolving(old(rows), active, locked)
      ensures resolved == |ClearedKeys(old(rows), active, locked)|
    {
      var keys := ListActive(locked);
      resolved := 0;
      ghost var done: set<DedupKey> := {};
      var i := 0;
      assert rows == ResolvedAll(rows, done);
      while i < |keys|
        invariant 0 <= i <= |keys|
        invariant done == set k | k in keys[..i] && k.identity !in active
        invariant rows == ResolvedAll(old(rows), done)
        invariant resolved == |done|
      {
        var k := keys[i];
        assert keys[..i + 1] == keys[..i] + [k];
        assert k !in keys[..i] && Active(old(rows), k);
        if k.identity !in active {
          ResolveOneMore(old(rows), done, k);
          rows := rows[k := rows[k].(status := Resolved, resolvedBy := Some(RECONCILER))];
          resolved := resolved + 1;
          done := done + {k};
        }
        i := i + 1;
      }
      assert keys[..|keys|] == keys;
      assert done == ClearedKeys(old(rows), active, locked);
    }

    /** `reconcile`: each alert is opened in its own transaction, then the cleared ones are resolved. */
    method Reconcile(seen: seq<Sighting>, locked: set<DedupKey>) returns (openedOrIncremented: nat, resolved: nat)
      modifies this
      ensures rows == Reconciled(old(rows), seen, locked)
      ensures openedOrIncremented == |seen|
      ensures resolved == |ClearedKeys(OpenedAll(old(rows), seen), Identities(seen), locked)|
    {
      var active: set<Identity> := {};
      var i := 0;
      while i < |seen|
        invariant 0 <= i <= |seen|
        invariant rows == OpenedAll(old(rows), seen[..i])
        invariant active == Identities(seen[..i])
      {
        assert seen[..i + 1][..i] == seen[..i] && seen[..i + 1] == seen[..i] + [seen[i]];
        active := active + {seen[i].condition.identity};
        OpenAlert(seen[i]);
        i := i + 1;
      }
      assert seen[..|seen|] == seen;
      resolved := ResolveCleared(active, locked);
      openedOrIncremented := |seen|;
    }

    /** `acknowledge`. */
    method Acknowledge(key: DedupKey, actorId: string) returns (r: Resolution)
      modifies this
      ensures r == NotFound <==> key !in old(rows)
      ensures r == AlreadyResolved <==> key in old(rows) && old(rows)[key].status == Resolved
      ensures rows == AfterAcknowledging(old(rows), key, actorId)
    {
      if key !in rows {
        return NotFound;
      }
      if rows[key].status == Resolved {
        return AlreadyResolved;
      }
      rows := rows[key := rows[key].(status := Acknowledged, acknowledgedBy := Some(actorId))];
      return Changed;
    }
  }
}
