/**
 * The object-name parameter map of an assignment: a Java Map<String, String>
 * seen through its iteration order. It is a sequence of entries whose keys
 * are distinct; the sequence order is whatever order the map's entry set
 * iterates in.
 * Map equality and Map.hashCode are defined, as java.util.Map defines them,
 * on the entry set, and so do not depend on that order.
 */
module ParameterMaps {

  import opened JavaHash

  /** One entry of the map: a key and its value. */
  type Entry = (string, string)

  /** No key occurs in two entries. */
  predicate DistinctKeys(ps: seq<Entry>)
  {
    forall i, j :: 0 <= i < j < |ps| ==> ps[i].0 != ps[j].0
  }

  /** A parameter map: its entries in iteration order. */
  type Params = ps: seq<Entry> | DistinctKeys(ps)

  /** Map.entrySet(). */
  function EntrySet(ps: seq<Entry>): (r: set<Entry>)
  {
    set i | 0 <= i < |ps| :: ps[i]
  }

  /** Map.keySet(). */
  function KeySet(ps: seq<Entry>): (r: set<string>)
  {
    set i | 0 <= i < |ps| :: ps[i].0
  }

  /** The key-to-value mapping, built by putting the entries in iteration order. */
  function ToMap(ps: seq<Entry>): (r: map<string, string>)
  {
    if |ps| == 0 then map[] else ToMap(ps[..|ps| - 1])[ps[|ps| - 1].0 := ps[|ps| - 1].1]
  }

  /** Map.equals (AbstractMap): the two maps have equal entry sets. */
  predicate SameMappings(ps: seq<Entry>, qs: seq<Entry>)
  {
    EntrySet(ps) == EntrySet(qs)
  }

  /** Map.Entry.hashCode: the key's hash code xor the value's hash code. */
  function EntryHash(e: Entry): (r: Int32)
  {
    Xor(StringHash(e.0), StringHash(e.1))
  }

  /**
   * Map.hashCode (AbstractMap): `h += e.hashCode()` over the entry set in
   * iteration order, starting from 0.
   */
  function MapHash(ps: seq<Entry>): (r: Int32)
  {
    if |ps| == 0 then 0 else Wrap(MapHash(ps[..|ps| - 1]) + EntryHash(ps[|ps| - 1]))
  }

  /** Dropping the last entry of a map leaves a map. */
  lemma DistinctKeysPrefix(ps: seq<Entry>)
    requires |ps| > 0 && DistinctKeys(ps)
    ensures DistinctKeys(ps[..|ps| - 1])
    ensures ps[|ps| - 1].0 !in KeySet(ps[..|ps| - 1])
    ensures ps[|ps| - 1] !in EntrySet(ps[..|ps| - 1])
  {
  }

  /** The entry set and the key set grow by the last entry. */
  lemma SetsSnoc(ps: seq<Entry>)
    requires |ps| > 0
    ensures EntrySet(ps) == EntrySet(ps[..|ps| - 1]) + {ps[|ps| - 1]}
    ensures KeySet(ps) == KeySet(ps[..|ps| - 1]) + {ps[|ps| - 1].0}
  {
    var n := |ps| - 1;
    forall e | e in EntrySet(ps) ensures e in EntrySet(ps[..n]) + {ps[n]} {
      var i :| 0 <= i < |ps| && ps[i] == e;
      if i < n { assert ps[..n][i] == e; }
    }
    forall k | k in KeySet(ps) ensures k in KeySet(ps[..n]) + {ps[n].0} {
      var i :| 0 <= i < |ps| && ps[i].0 == k;
      if i < n { assert ps[..n][i].0 == k; }
    }
  }

  /**
   * For a map, the key-to-value view has the map's keys, and an entry is in
   * the entry set exactly when the view maps its key to its value.
   */
  lemma {:induction false} ToMapAgreesWithEntrySet(ps: seq<Entry>)
    requires DistinctKeys(ps)
    ensures ToMap(ps).Keys == KeySet(ps)
    ensures forall e :: e in EntrySet(ps) <==> e.0 in ToMap(ps) && ToMap(ps)[e.0] == e.1
  {
    if |ps| > 0 {
      var n := |ps| - 1;
      DistinctKeysPrefix(ps);
      SetsSnoc(ps);
      ToMapAgreesWithEntrySet(ps[..n]);
      assert forall e :: e in EntrySet(ps[..n]) ==> e.0 in KeySet(ps[..n]);
    }
  }

  /**
   * Equality of maps through their entry sets is equality of the key-to-value
   * mappings, whatever the two iteration orders.
   */
  lemma SameMappingsIffSameMap(ps: seq<Entry>, qs: seq<Entry>)
    requires DistinctKeys(ps) && DistinctKeys(qs)
    ensures SameMappings(ps, qs) <==> ToMap(ps) == ToMap(qs)
  {
    ToMapAgreesWithEntrySet(ps);
    ToMapAgreesWithEntrySet(qs);
    if ToMap(ps) == ToMap(qs) {
      assert EntrySet(ps) == EntrySet(qs);
    }
    if SameMappings(ps, qs) {
      forall k | k in ToMap(ps) ensures k in ToMap(qs) && ToMap(qs)[k] == ToMap(ps)[k] {
        assert (k, ToMap(ps)[k]) in EntrySet(ps);
      }
      forall k | k in ToMap(qs) ensures k in ToMap(ps) {
        assert (k, ToMap(qs)[k]) in EntrySet(qs);
      }
    }
  }

  /** Map.hashCode is the wrapped sum of the entry hash codes over the entry set. */
  lemma {:induction false} MapHashIsEntrySetSum(ps: seq<Entry>)
    requires DistinctKeys(ps)
    ensures MapHash(ps) == Wrap(Sum(EntrySet(ps), EntryHash))
  {
    if |ps| > 0 {
      var n := |ps| - 1;
      DistinctKeysPrefix(ps);
      SetsSnoc(ps);
      MapHashIsEntrySetSum(ps[..n]);
      WrappedSumInsert(EntrySet(ps[..n]), EntryHash, ps[n]);
    }
  }

  /** Maps with equal entry sets have equal hash codes, whatever their iteration orders. */
  lemma SameMappingsSameHash(ps: seq<Entry>, qs: seq<Entry>)
    requires DistinctKeys(ps) && DistinctKeys(qs)
    requires SameMappings(ps, qs)
    ensures MapHash(ps) == MapHash(qs)
  {
    MapHashIsEntrySetSum(ps);
    MapHashIsEntrySetSum(qs);
  }

}
