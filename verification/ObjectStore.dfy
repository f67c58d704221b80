/** The discipline shared by attendance photos and journal photos: a stored object
    is named by a committed row, or owned by one request in flight, or leaked by a
    failed delete, and never two of these at once. */
module ObjectStore {
  import opened Schema

  datatype Store = Store(named: set<Key>, flights: seq<set<Key>>, leaked: set<Key>, objects: set<Key>, used: set<Key>)

  ghost predicate InFlight(flights: seq<set<Key>>, k: Key) {
    exists n :: 0 <= n < |flights| && k in flights[n]
  }

  ghost predicate Sound(s: Store) {
    && (forall k :: k in s.objects <==> k in s.named || k in s.leaked || InFlight(s.flights, k))
    && s.named !! s.leaked
    && (forall n :: 0 <= n < |s.flights| ==> s.flights[n] !! s.named && s.flights[n] !! s.leaked)
    && (forall m, n :: 0 <= m < n < |s.flights| ==> s.flights[m] !! s.flights[n])
    && s.objects <= s.used
  }

  function PutObject(s: Store, n: nat, key: Key): Store
    requires n < |s.flights|
  {
    s.(flights := s.flights[n := s.flights[n] + {key}], objects := s.objects + {key}, used := s.used + {key})
  }

  function DeleteObject(s: Store, n: nat, key: Key, ok: bool): Store
    requires n < |s.flights|
  {
    var t := s.(flights := s.flights[n := s.flights[n] - {key}]);
    if ok then t.(objects := s.objects - {key}) else t.(leaked := s.leaked + {key})
  }

  /** A row is committed that names every key its request owned. */
  function NameKeys(s: Store, n: nat): Store
    requires n < |s.flights|
  {
    s.(named := s.named + s.flights[n], flights := s.flights[n := {}])
  }

  /** A row is deleted; its request now owns the key. */
  function UnnameKey(s: Store, n: nat, key: Key): Store
    requires n < |s.flights|
  {
    s.(named := s.named - {key}, flights := s.flights[n := s.flights[n] + {key}])
  }

  function Join(s: Store): Store { s.(flights := s.flights + [{}]) }

  lemma OwnedIsStored(s: Store, n: nat, key: Key)
    requires Sound(s) && n < |s.flights| && key in s.flights[n]
    ensures key in s.objects && key in s.used
  {
    assert InFlight(s.flights, key);
  }

  /** Which keys requests own after request n's set became f. */
  lemma OwnersAfter(s: Store, n: nat, f: set<Key>, k: Key)
    requires Sound(s) && n < |s.flights|
    ensures InFlight(s.flights[n := f], k) <==> k in f || (InFlight(s.flights, k) && k !in s.flights[n])
  {
    var g := s.flights[n := f];
    if k in f { assert k in g[n]; }
    if InFlight(s.flights, k) && k !in s.flights[n] {
      var m :| 0 <= m < |s.flights| && k in s.flights[m];
      assert k in g[m];
    }
    if InFlight(g, k) && k !in f {
      var m :| 0 <= m < |g| && k in g[m];
      assert k in s.flights[m] && m != n;
      if m < n { assert s.flights[m] !! s.flights[n]; } else { assert s.flights[n] !! s.flights[m]; }
    }
  }

  lemma PutKeepsSound(s: Store, n: nat, key: Key)
    requires Sound(s) && n < |s.flights| && key !in s.used
    ensures Sound(PutObject(s, n, key))
  {
    var t := PutObject(s, n, key);
    forall k ensures k in t.objects <==> k in t.named || k in t.leaked || InFlight(t.flights, k) {
      OwnersAfter(s, n, t.flights[n], k);
      if k in s.flights[n] { OwnedIsStored(s, n, k); }
    }
    forall m | 0 <= m < |s.flights| ensures key !in s.flights[m] {
      if key in s.flights[m] { assert InFlight(s.flights, key); }
    }
  }

  lemma DeleteKeepsSound(s: Store, n: nat, key: Key, ok: bool)
    requires Sound(s) && n < |s.flights| && key in s.flights[n]
    ensures Sound(DeleteObject(s, n, key, ok))
  {
    var t := DeleteObject(s, n, key, ok);
    OwnedIsStored(s, n, key);
    forall k ensures k in t.objects <==> k in t.named || k in t.leaked || InFlight(t.flights, k) {
      OwnersAfter(s, n, t.flights[n], k);
      if k in s.flights[n] { OwnedIsStored(s, n, k); }
    }
    forall m | 0 <= m < |s.flights| && m != n ensures key !in s.flights[m] {
      if m < n { assert s.flights[m] !! s.flights[n]; } else { assert s.flights[n] !! s.flights[m]; }
    }
  }

  lemma NameKeepsSound(s: Store, n: nat)
    requires Sound(s) && n < |s.flights|
    ensures Sound(NameKeys(s, n))
  {
    var t := NameKeys(s, n);
    forall k ensures k in t.objects <==> k in t.named || k in t.leaked || InFlight(t.flights, k) {
      OwnersAfter(s, n, {}, k);
      if k in s.flights[n] { OwnedIsStored(s, n, k); }
    }
    forall m | 0 <= m < |s.flights| && m != n ensures s.flights[m] !! s.flights[n] {
      if m < n { assert s.flights[m] !! s.flights[n]; } else { assert s.flights[n] !! s.flights[m]; }
    }
  }

  lemma UnnameKeepsSound(s: Store, n: nat, key: Key)
    requires Sound(s) && n < |s.flights| && key in s.named
    ensures Sound(UnnameKey(s, n, key))
  {
    var t := UnnameKey(s, n, key);
    forall k ensures k in t.objects <==> k in t.named || k in t.leaked || InFlight(t.flights, k) {
      OwnersAfter(s, n, t.flights[n], k);
      if k in s.flights[n] { OwnedIsStored(s, n, k); }
    }
    forall m | 0 <= m < |s.flights| ensures key !in s.flights[m] {
      assert s.flights[m] !! s.named;
    }
  }

  lemma JoinKeepsSound(s: Store)
    requires Sound(s)
    ensures Sound(Join(s))
  {
    var t := Join(s);
    forall k ensures InFlight(t.flights, k) <==> InFlight(s.flights, k) {
      if m :| 0 <= m < |s.flights| && k in s.flights[m] { assert k in t.flights[m]; }
    }
  }

  /** No committed row ever names a missing object; and once nothing is in flight and
      no delete has failed, the bucket holds exactly the named objects. */
  lemma SoundMeansNoMissingNoOrphan(s: Store)
    requires Sound(s)
    ensures s.named <= s.objects
    ensures s.leaked == {} && (forall n :: 0 <= n < |s.flights| ==> s.flights[n] == {}) ==> s.objects == s.named
  {
  }
}
