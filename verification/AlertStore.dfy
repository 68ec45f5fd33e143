/**
 Alert persistence of apps/ingest/src/rules/store.ts: each function is one transaction. A key
 stands for a rule and the sensor it watches; the conflict target of the insert is the partial
 unique index of migration 003 on unresolved alerts.
 */
module AlertStore {
  import opened Wrappers

  type Key = nat
  type Id = nat
  type Target = nat

  datatype Alert = Alert(key: Key, resolved: bool, acknowledged: bool, targets: set<Target>)

  /** Alerts, and the outbox rows that say where each must be sent. */
  datatype Db = Db(alerts: map<Id, Alert>, outbox: set<(Id, Target)>)

  predicate Unresolved(db: Db, id: Id, key: Key) {
    id in db.alerts && db.alerts[id].key == key && !db.alerts[id].resolved
  }

  predicate Holds(db: Db, key: Key) { exists id :: id in db.alerts && Unresolved(db, id, key) }

  function OpenResult(db: Db, key: Key, id: Id): Option<Id> {
    if Holds(db, key) then None else Some(id)
  }

  /** Insert the alert and its outbox rows, or nothing when an unresolved alert stands. */
  function OpenAlert(db: Db, key: Key, id: Id, targets: set<Target>): Db {
    if Holds(db, key) then db
    else Db(db.alerts[id := Alert(key, false, false, targets)], db.outbox + set t | t in targets :: (id, t))
  }

  function ResolveAlert(db: Db, id: Id): Db {
    if id in db.alerts && !db.alerts[id].resolved then db.(alerts := db.alerts[id := db.alerts[id].(resolved := true)]) else db
  }

  /** Only an alert still in its first state is acknowledged. */
  predicate Acknowledgeable(db: Db, id: Id) {
    id in db.alerts && !db.alerts[id].resolved && !db.alerts[id].acknowledged
  }

  function AcknowledgeAlert(db: Db, id: Id): Db {
    if Acknowledgeable(db, id) then db.(alerts := db.alerts[id := db.alerts[id].(acknowledged := true)]) else db
  }

  /** At most one unresolved alert per key, and every alert has exactly its own outbox rows. */
  ghost predicate Sound(db: Db) {
    && (forall a, b, key :: Unresolved(db, a, key) && Unresolved(db, b, key) ==> a == b)
    && forall id, t :: (id, t) in db.outbox <==> id in db.alerts && t in db.alerts[id].targets
  }

  /** An alert and the rows saying where to send it appear together, and nothing else changes either. */
  lemma StoreKeepsSound(db: Db, key: Key, id: Id, targets: set<Target>)
    requires Sound(db)
    ensures id !in db.alerts ==> Sound(OpenAlert(db, key, id, targets))
    ensures Sound(ResolveAlert(db, id)) && Sound(AcknowledgeAlert(db, id))
  {
    var u := OpenAlert(db, key, id, targets);
    if id !in db.alerts {
      forall a, b, k | Unresolved(u, a, k) && Unresolved(u, b, k) ensures a == b {
        if a != id { assert Unresolved(db, a, k); }
        if b != id { assert Unresolved(db, b, k); }
      }
    }
    var v := ResolveAlert(db, id);
    forall a, b, k | Unresolved(v, a, k) && Unresolved(v, b, k) ensures a == b {
      assert Unresolved(db, a, k) && Unresolved(db, b, k);
    }
    var x := AcknowledgeAlert(db, id);
    forall a, b, k | Unresolved(x, a, k) && Unresolved(x, b, k) ensures a == b {
      assert Unresolved(db, a, k) && Unresolved(db, b, k);
    }
  }

  /** What a live-alert query returns: every key with an unresolved alert, with that alert. */
  ghost predicate IsLive(db: Db, live: map<Key, Id>) {
    && (forall key :: key in live ==> Unresolved(db, live[key], key))
    && forall id, key :: Unresolved(db, id, key) ==> key in live
  }

  class Store {
    var db: Db

    constructor ()
      ensures db == Db(map[], {}) && Sound(db)
    {
      db := Db(map[], {});
    }

    method Open(key: Key, id: Id, targets: set<Target>) returns (raised: Option<Id>)
      requires id !in db.alerts && Sound(db)
      modifies this
      ensures db == OpenAlert(old(db), key, id, targets) && Sound(db) && raised == OpenResult(old(db), key, id)
    {
      StoreKeepsSound(db, key, id, targets);
      if Holds(db, key) { return None; }
      var alerts := db.alerts[id := Alert(key, false, false, targets)];
      if targets != {} {
        db := Db(alerts, db.outbox + set t | t in targets :: (id, t));
      } else {
        db := db.(alerts := alerts);
      }
      return Some(id);
    }

    method Resolve(id: Id) returns (resolved: bool)
      requires Sound(db)
      modifies this
      ensures db == ResolveAlert(old(db), id) && Sound(db)
      ensures resolved == (id in old(db).alerts && !old(db).alerts[id].resolved)
    {
      StoreKeepsSound(db, 0, id, {});
      resolved := id in db.alerts && !db.alerts[id].resolved;
      if resolved { db := db.(alerts := db.alerts[id := db.alerts[id].(resolved := true)]); }
    }

    method Acknowledge(id: Id) returns (acknowledged: bool)
      requires Sound(db)
      modifies this
      ensures db == AcknowledgeAlert(old(db), id) && Sound(db)
      ensures acknowledged == Acknowledgeable(old(db), id)
    {
      StoreKeepsSound(db, 0, id, {});
      acknowledged := Acknowledgeable(db, id);
      if acknowledged { db := db.(alerts := db.alerts[id := db.alerts[id].(acknowledged := true)]); }
    }

    method LoadLiveAlerts() returns (live: map<Key, Id>)
      requires Sound(db)
      ensures IsLive(db, live)
    {
      live := map[];
      var rest := db.alerts.Keys;
      while rest != {}
        invariant rest <= db.alerts.Keys
        invariant forall key :: key in live ==> Unresolved(db, live[key], key)
        invariant forall id, key :: Unresolved(db, id, key) && id !in rest ==> key in live
        decreases |rest|
      {
        var id :| id in rest;
        rest := rest - {id};
        if !db.alerts[id].resolved {
          assert Unresolved(db, id, db.alerts[id].key);
          live := live[db.alerts[id].key := id];
        }
      }
    }
  }
}
