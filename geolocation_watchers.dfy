/** The watch registry of the Geolocation API (GeolocationWatchers.cpp): a
    map from positive watch ids to notifiers, together with the reverse map
    from each notifier to the id it was last added under. */
module Geolocation {
  import opened Common

  /** A GeoNotifier, identified by its address. */
  datatype Notifier = Notifier(address: nat)

  class GeolocationWatchers {
    var idToNotifier: map<int, Notifier>
    var notifierToId: map<Notifier, int>

    /** Every reverse entry points back at an id that maps to that notifier,
        and every id is positive. */
    predicate Valid()
      reads this
    {
      (forall id :: id in idToNotifier ==> id > 0)
      && (forall n :: n in notifierToId ==> notifierToId[n] in idToNotifier && idToNotifier[notifierToId[n]] == n)
    }

    constructor()
      ensures Valid()
      ensures idToNotifier == map[] && notifierToId == map[]
    {
      idToNotifier := map[];
      notifierToId := map[];
    }

    /** add: refused when the id is already present; otherwise records the
        id in both directions. */
    method Add(id: int, notifier: Notifier) returns (added: bool)
      requires Valid() && id > 0
      modifies this
      ensures Valid()
      ensures added <==> id !in old(idToNotifier)
      ensures !added ==> idToNotifier == old(idToNotifier) && notifierToId == old(notifierToId)
      ensures added ==> idToNotifier == old(idToNotifier)[id := notifier]
                        && notifierToId == old(notifierToId)[notifier := id]
      ensures added ==> Lookup(id) == Some(notifier) && notifier in notifierToId
    {
      if id in idToNotifier {
        return false;
      }
      idToNotifier := idToNotifier[id := notifier];
      notifierToId := notifierToId[notifier := id];
      return true;
    }

    /** The notifier stored for an id, or None where the source returns null. */
    function Lookup(id: int): Option<Notifier>
      reads this
    {
      if id in idToNotifier then Some(idToNotifier[id]) else None
    }

    /** find: the stored notifier for a present id, None otherwise. */
    method Find(id: int) returns (r: Option<Notifier>)
      requires id > 0
      ensures r.Some? <==> id in idToNotifier
      ensures r.Some? ==> r.value == idToNotifier[id]
    {
      if id !in idToNotifier {
        return None;
      }
      return Some(idToNotifier[id]);
    }

    /** remove(id): nothing for an absent id; otherwise drops the id and the
        reverse entry of its notifier. */
    method RemoveId(id: int)
      requires Valid() && id > 0
      modifies this
      ensures Valid()
      ensures id !in old(idToNotifier) ==> idToNotifier == old(idToNotifier) && notifierToId == old(notifierToId)
      ensures id in old(idToNotifier) ==>
        idToNotifier == old(idToNotifier) - {id}
        && notifierToId == old(notifierToId) - {old(idToNotifier)[id]}
    {
      if id !in idToNotifier {
        return;
      }
      var notifier := idToNotifier[id];
      notifierToId := notifierToId - {notifier};
      idToNotifier := idToNotifier - {id};
    }

    /** remove(notifier): drops the notifier's recorded id and its reverse
        entry; nothing when the notifier is not recorded. */
    method RemoveNotifier(notifier: Notifier)
      requires Valid()
      modifies this
      ensures Valid()
      ensures notifier !in old(notifierToId) ==> idToNotifier == old(idToNotifier) && notifierToId == old(notifierToId)
      ensures notifier in old(notifierToId) ==>
        idToNotifier == old(idToNotifier) - {old(notifierToId)[notifier]}
        && notifierToId == old(notifierToId) - {notifier}
      ensures notifier !in notifierToId
    {
      if notifier !in notifierToId {
        return;
      }
      var id := notifierToId[notifier];
      idToNotifier := idToNotifier - {id};
      notifierToId := notifierToId - {notifier};
    }

    /** contains: whether the notifier has a reverse entry. */
    method Contains(notifier: Notifier) returns (r: bool)
      ensures r <==> notifier in notifierToId
    {
      return notifier in notifierToId;
    }

    method Clear()
      modifies this
      ensures Valid()
      ensures idToNotifier == map[] && notifierToId == map[]
    {
      idToNotifier := map[];
      notifierToId := map[];
    }

    /** isEmpty looks at the id map only; under Valid() the reverse map is
        then empty too. */
    method IsEmpty() returns (r: bool)
      requires Valid()
      ensures r <==> idToNotifier == map[]
      ensures r ==> notifierToId == map[]
    {
      r := |idToNotifier| == 0;
      if r {
        EmptyForwardEmptiesReverse(idToNotifier, notifierToId);
      }
    }
  }

  /** A reverse map whose every entry points into an empty forward map is
      empty. */
  lemma EmptyForwardEmptiesReverse(forward: map<int, Notifier>, reverse: map<Notifier, int>)
    requires forall n :: n in reverse ==> reverse[n] in forward
    requires forward == map[]
    ensures reverse == map[]
  {
  }

  /** Adding a fresh id for a fresh notifier and then removing the id restores
      both maps. */
  method AddThenRemoveRestores(w: GeolocationWatchers, id: int, notifier: Notifier)
    requires w.Valid() && id > 0
    requires id !in w.idToNotifier && notifier !in w.notifierToId
    modifies w
    ensures w.Valid()
    ensures w.idToNotifier == old(w.idToNotifier) && w.notifierToId == old(w.notifierToId)
  {
    var added := w.Add(id, notifier);
    assert added;
    w.RemoveId(id);
    assert w.idToNotifier == old(w.idToNotifier);
    assert w.notifierToId == old(w.notifierToId);
  }

  /** Adding the same notifier under two ids leaves the first id in the
      forward map; removing the first id then drops the notifier's only
      reverse entry, so contains() answers false while the second id is
      still watched by it. */
  method SharedNotifierLosesReverseEntry(w: GeolocationWatchers, notifier: Notifier)
    requires w.Valid()
    requires w.idToNotifier == map[] && w.notifierToId == map[]
    modifies w
    ensures w.Valid()
    ensures w.idToNotifier == map[2 := notifier]
    ensures notifier !in w.notifierToId
  {
    var a := w.Add(1, notifier);
    var b := w.Add(2, notifier);
    w.RemoveId(1);
    assert w.idToNotifier == map[2 := notifier];
  }
}
