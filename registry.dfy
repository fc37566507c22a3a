/**
 The table both ServiceHost variants keep: an append-only sequence of
 (key, service) entries searched front to back.
 */
module Registry {
  import opened CppModel

  /** ServiceEntry: a key (std::type_index or IID) and the std::shared_ptr<IService> stored under it. */
  datatype ServiceEntry<K> = ServiceEntry(key: K, service: Service?)

  /** Some entry carries `key`. */
  ghost predicate Registered<K>(entries: seq<ServiceEntry<K>>, key: K) {
    exists j :: 0 <= j < |entries| && entries[j].key == key
  }

  /** What GetService's loop returns: the service of the first entry with `key`, or null. */
  function Lookup<K(==)>(entries: seq<ServiceEntry<K>>, key: K): (s: Service?)
    ensures s != null ==> exists j :: 0 <= j < |entries| && entries[j].key == key && entries[j].service == s
  {
    if entries == [] then null
    else if entries[0].key == key then entries[0].service
    else
      var s := Lookup(entries[1..], key);
      assert s != null ==> exists j :: 1 <= j < |entries| && entries[j] == entries[1..][j - 1] && entries[j].key == key && entries[j].service == s;
      s
  }

  /** The entry at the first index carrying `key` is the one found. */
  lemma {:induction false} LookupFindsFirstMatch<K>(entries: seq<ServiceEntry<K>>, key: K, i: nat)
    requires i < |entries| && entries[i].key == key
    requires forall j :: 0 <= j < i ==> entries[j].key != key
    ensures Lookup(entries, key) == entries[i].service
  {
    if i > 0 {
      LookupFindsFirstMatch(entries[1..], key, i - 1);
    }
  }

  /** A key no entry carries yields null: the contrapositive of Lookup's own ensures. */
  lemma LookupMissIsNull<K>(entries: seq<ServiceEntry<K>>, key: K)
    requires !Registered(entries, key)
    ensures Lookup(entries, key) == null
  {
  }

  /** Both lemmas above at once: the lookup is the first match, and null when nothing matches. */
  lemma LookupIsFirstMatch<K>(entries: seq<ServiceEntry<K>>, key: K)
    ensures forall i :: 0 <= i < |entries| && entries[i].key == key && (forall j :: 0 <= j < i ==> entries[j].key != key) ==>
              Lookup(entries, key) == entries[i].service
    ensures !Registered(entries, key) ==> Lookup(entries, key) == null
  {
    forall i | 0 <= i < |entries| && entries[i].key == key && (forall j :: 0 <= j < i ==> entries[j].key != key)
      ensures Lookup(entries, key) == entries[i].service
    {
      LookupFindsFirstMatch(entries, key, i);
    }
    if !Registered(entries, key) {
      LookupMissIsNull(entries, key);
    }
  }

  /**
   The resolver lambda both hosts hand to interface_to_service_tuple,
   GetService<IService>(key) over the current entries: the first entry under
   `key` seen as an IService, null when there is none.
   */
  function Resolve<K(==)>(entries: seq<ServiceEntry<K>>, key: K): (p: SharedPtr)
    ensures p.pointee == IService
    ensures forall i :: 0 <= i < |entries| && entries[i].key == key && (forall j :: 0 <= j < i ==> entries[j].key != key) ==>
              p.obj == entries[i].service
    ensures !Registered(entries, key) ==> p.obj == null
  {
    LookupIsFirstMatch(entries, key);
    SharedPtr(IService, Lookup(entries, key))
  }

  /** Past a first entry with another key, the key is registered exactly when it is in the rest. */
  lemma RegisteredInTail<K>(entries: seq<ServiceEntry<K>>, key: K)
    requires entries != [] && entries[0].key != key
    ensures Registered(entries, key) <==> Registered(entries[1..], key)
  {
    if Registered(entries, key) {
      var j :| 0 <= j < |entries| && entries[j].key == key;
      assert entries[1..][j - 1] == entries[j];
    }
    if Registered(entries[1..], key) {
      var j :| 0 <= j < |entries[1..]| && entries[1..][j].key == key;
      assert entries[j + 1] == entries[1..][j];
    }
  }

  /** When every stored service is non-null, a lookup is null exactly when the key is missing. */
  lemma {:induction false} LookupNullIffMissing<K>(entries: seq<ServiceEntry<K>>, key: K)
    requires forall j :: 0 <= j < |entries| ==> entries[j].service != null
    ensures Lookup(entries, key) == null <==> !Registered(entries, key)
  {
    if entries != [] && entries[0].key != key {
      RegisteredInTail(entries, key);
      LookupNullIffMissing(entries[1..], key);
    }
  }

  /**
   Appending an entry changes no lookup of a key already present: the earliest
   entry wins. A key first added by the append now finds the new service.
   */
  lemma {:induction false} LookupAfterAppend<K>(entries: seq<ServiceEntry<K>>, e: ServiceEntry<K>, key: K)
    ensures Registered(entries, key) ==> Lookup(entries + [e], key) == Lookup(entries, key)
    ensures !Registered(entries, key) ==> Lookup(entries + [e], key) == if e.key == key then e.service else null
  {
    if entries == [] {
      assert entries + [e] == [e];
    } else {
      assert (entries + [e])[1..] == entries[1..] + [e];
      if entries[0].key != key {
        LookupAfterAppend(entries[1..], e, key);
        RegisteredInTail(entries, key);
      }
    }
  }
}
