/**
 * The JMX bean sensor assignment: which MBean (by domain and object-name
 * parameters) and which of its attributes a JMX sensor samples. The record
 * has three persisted fields, a transient cache of the object name built
 * from them, structural equality and a hash code over the persisted fields.
 */
module JmxAssignment {

  import opened Wrappers
  import opened JavaHash
  import opened ParameterMaps
  import opened ObjectNames

  /** The sensor configuration classes an assignment can name. */
  datatype SensorConfigClass = JmxSensorConfig

  /** How a Java call ends: with a value, or with a NullPointerException. */
  datatype Outcome<T> = Returned(value: T) | ThrewNullPointer

  /** The three persisted fields of an assignment; None stands for null. */
  datatype Persisted = Persisted(
    domain: Option<string>,
    objectNameParameters: Option<Params>,
    attributes: Option<set<string>>)

  /**
   * The field comparisons of equals: attributes, then domain, then the
   * parameter map, each null-safe (null equals only null).
   */
  predicate Equivalent(a: Persisted, b: Persisted)
  {
    && a.attributes == b.attributes
    && a.domain == b.domain
    && match (a.objectNameParameters, b.objectNameParameters)
       case (None, None) => true
       case (Some(p), Some(q)) => SameMappings(p, q)
       case _ => false
  }

  /** One step of hashCode's accumulator: `result = prime * result + fieldHash`, prime 31. */
  function Accumulate(result: Int32, fieldHash: Int32): (r: Int32)
  {
    Wrap(31 * result + fieldHash)
  }

  /** The hash of each field, 0 for null. */
  ghost function AttributesHash(attributes: Option<set<string>>): (r: Int32)
  {
    if attributes.None? then 0 else SetHash(attributes.value)
  }

  function DomainHash(domain: Option<string>): (r: Int32)
  {
    if domain.None? then 0 else StringHash(domain.value)
  }

  function ParametersHash(parameters: Option<Params>): (r: Int32)
  {
    if parameters.None? then 0 else MapHash(parameters.value)
  }

  /** hashCode: the accumulator starts at 1 and takes attributes, domain and parameters in turn. */
  ghost function Hash(a: Persisted): (r: Int32)
  {
    var result := Accumulate(1, AttributesHash(a.attributes));
    var result := Accumulate(result, DomainHash(a.domain));
    Accumulate(result, ParametersHash(a.objectNameParameters))
  }

  /**
   * constructObjectName in closed form. No parameters (null or empty map): no
   * name. Otherwise `new StringBuilder(domain)` throws when the domain is
   * null; else the candidate string goes to the parser, and a malformed one
   * gives no name.
   */
  function Construct(a: Persisted, valid: string -> bool): (r: Outcome<Option<ObjectName>>)
  {
    if a.objectNameParameters.None? || |a.objectNameParameters.value| == 0 then Returned(None)
    else if a.domain.None? then ThrewNullPointer
    else Returned(Parse(CandidateName(a.domain.value, a.objectNameParameters.value), valid))
  }

  /** With a null or empty parameter map, construction gives no name and throws nothing. */
  lemma ConstructWithoutParameters(a: Persisted, valid: string -> bool)
    requires a.objectNameParameters.None? || a.objectNameParameters.value == []
    ensures Construct(a, valid) == Returned(None)
  {
  }

  /**
   * Construction throws exactly when there are parameters but no domain; it
   * yields a name exactly when there are parameters, a domain and the
   * candidate string parses, and the name is then that string.
   */
  lemma ConstructOutcomes(a: Persisted, valid: string -> bool)
    ensures Construct(a, valid) == ThrewNullPointer <==>
      a.objectNameParameters.Some? && |a.objectNameParameters.value| > 0 && a.domain.None?
    ensures Construct(a, valid).Returned? && Construct(a, valid).value.Some? <==>
      && a.objectNameParameters.Some? && |a.objectNameParameters.value| > 0 && a.domain.Some?
      && valid(CandidateName(a.domain.value, a.objectNameParameters.value))
    ensures Construct(a, valid).Returned? && Construct(a, valid).value.Some? ==>
      Construct(a, valid).value.value.name == CandidateName(a.domain.value, a.objectNameParameters.value)
  {
  }

  /** equals is an equivalence relation on the persisted fields. */
  lemma EquivalentIsEquivalence(a: Persisted, b: Persisted, c: Persisted)
    ensures Equivalent(a, a)
    ensures Equivalent(a, b) ==> Equivalent(b, a)
    ensures Equivalent(a, b) && Equivalent(b, c) ==> Equivalent(a, c)
  {
  }

  /** Equal records have equal hash codes, whatever the iteration orders of their maps. */
  lemma EquivalentSameHash(a: Persisted, b: Persisted)
    requires Equivalent(a, b)
    ensures Hash(a) == Hash(b)
  {
    if a.objectNameParameters.Some? {
      SameMappingsSameHash(a.objectNameParameters.value, b.objectNameParameters.value);
    }
    assert ParametersHash(a.objectNameParameters) == ParametersHash(b.objectNameParameters);
  }

  /** With all three fields null the hash code is 31 * 31 * 31. */
  lemma AllNullHash()
    ensures Hash(Persisted(None, None, None)) == 29791
  {
  }

  /**
   * Equal records can build different candidate strings: when a colon-free
   * domain and plain entries are involved, two equal maps whose iteration
   * orders differ give different strings.
   */
  lemma ReorderedParametersNameDifferently(a: Persisted, b: Persisted)
    requires Equivalent(a, b)
    requires a.domain.Some? && ':' !in a.domain.value
    requires a.objectNameParameters.Some? && b.objectNameParameters.Some?
    requires |a.objectNameParameters.value| > 0 && PlainEntries(a.objectNameParameters.value)
    requires PlainEntries(b.objectNameParameters.value)
    requires a.objectNameParameters.value != b.objectNameParameters.value
    ensures CandidateName(a.domain.value, a.objectNameParameters.value)
         != CandidateName(b.domain.value, b.objectNameParameters.value)
  {
    var p, q := a.objectNameParameters.value, b.objectNameParameters.value;
    assert |q| > 0 by {
      assert p[0] in EntrySet(p);
    }
    if CandidateName(a.domain.value, p) == CandidateName(b.domain.value, q) {
      CandidateNameInjective(a.domain.value, p, b.domain.value, q);
    }
  }

  /**
   * The concrete case: {a=1, b=2} inserted in two orders. The records are
   * equal, and their candidate strings are `d:a=1,b=2` and `d:b=2,a=1`.
   */
  lemma EqualRecordsDifferentCandidates()
    ensures var a := Persisted(Some("d"), Some([("a", "1"), ("b", "2")]), None);
            var b := Persisted(Some("d"), Some([("b", "2"), ("a", "1")]), None);
            && Equivalent(a, b)
            && CandidateName("d", [("a", "1"), ("b", "2")]) == "d:a=1,b=2"
            && CandidateName("d", [("b", "2"), ("a", "1")]) == "d:b=2,a=1"
  {
    var p: seq<Entry> := [("a", "1"), ("b", "2")];
    var q: seq<Entry> := [("b", "2"), ("a", "1")];
    assert p[0] == q[1] && p[1] == q[0];
    assert EntrySet(p) == {p[0], p[1]};
    assert EntrySet(q) == {q[0], q[1]};
  }

  /** The record itself, with its persisted fields and the transient name cache. */
  class JmxBeanSensorAssignment {
    var domain: Option<string>
    var objectNameParameters: Option<Params>
    var attributes: Option<set<string>>
    /** The cached object name; None until a name has been built. */
    var objectName: Option<ObjectName>

    /** The default constructor: every field null. */
    constructor ()
      ensures domain == None && objectNameParameters == None && attributes == None
      ensures objectName == None
    {
      domain, objectNameParameters, attributes := None, None, None;
      objectName := None;
    }

    /** The persisted fields, as compared by equals and hashed by hashCode. */
    function Fields(): (r: Persisted)
      reads this
    {
      Persisted(domain, objectNameParameters, attributes)
    }

    /** getSensorConfigClass: always the JMX sensor configuration. */
    function GetSensorConfigClass(): (r: SensorConfigClass)
    {
      JmxSensorConfig
    }

    method GetDomain() returns (d: Option<string>)
      ensures d == domain
    {
      d := domain;
    }

    method SetDomain(d: Option<string>)
      modifies this`domain
      ensures domain == d
      ensures objectNameParameters == old(objectNameParameters) && attributes == old(attributes)
      ensures objectName == old(objectName)
    {
      domain := d;
    }

    method GetObjectNameParameters() returns (p: Option<Params>)
      ensures p == objectNameParameters
    {
      p := objectNameParameters;
    }

    method SetObjectNameParameters(p: Option<Params>)
      modifies this`objectNameParameters
      ensures objectNameParameters == p
      ensures domain == old(domain) && attributes == old(attributes)
      ensures objectName == old(objectName)
    {
      objectNameParameters := p;
    }

    method GetAttributes() returns (s: Option<set<string>>)
      ensures s == attributes
    {
      s := attributes;
    }

    method SetAttributes(s: Option<set<string>>)
      modifies this`attributes
      ensures attributes == s
      ensures domain == old(domain) && objectNameParameters == old(objectNameParameters)
      ensures objectName == old(objectName)
    {
      attributes := s;
    }

    /** The cache, when filled, holds the name the current fields construct. */
    ghost predicate CacheCoherent(valid: string -> bool)
      reads this
    {
      objectName.Some? ==> Construct(Fields(), valid) == Returned(objectName)
    }

    /**
     * constructObjectName: appends the domain, ':', and each `key=value`
     * in iteration order with a ',' after every entry but the last, then
     * parses the string.
     */
    method ConstructObjectName(valid: string -> bool) returns (r: Outcome<Option<ObjectName>>)
      ensures r == Construct(Fields(), valid)
    {
      if objectNameParameters.Some? && |objectNameParameters.value| > 0 {
        if domain.None? {
          return ThrewNullPointer;
        }
        var ps := objectNameParameters.value;
        var nameString := domain.value + ":";
        var i := 0;
        while i < |ps|
          invariant 0 <= i <= |ps|
          invariant nameString == domain.value + ":" + KeyPropertyList(ps[..i]) + (if 0 < i < |ps| then "," else "")
        {
          var next := ps[i];
          i := i + 1;
          if i > 1 {
            assert ps[..i] == ps[..i - 1] + [next];
            KeyPropertyListSnoc(ps[..i - 1], next);
          } else {
            assert ps[..i] == [next];
          }
          nameString := nameString + next.0 + "=" + next.1;
          if i < |ps| {
            nameString := nameString + ",";
          }
        }
        assert ps[..i] == ps;
        assert nameString == CandidateName(domain.value, ps);
        r := Returned(Parse(nameString, valid));
      } else {
        r := Returned(None);
      }
    }

    /**
     * getObjectName: builds the name only while the cache is empty and keeps
     * what it built; a name already cached is returned as it is. An exception
     * from the construction leaves the cache as it was.
     */
    method GetObjectName(valid: string -> bool) returns (r: Outcome<Option<ObjectName>>)
      modifies this`objectName
      ensures old(objectName).Some? ==> r == Returned(old(objectName)) && objectName == old(objectName)
      ensures old(objectName).None? ==> r == Construct(Fields(), valid)
      ensures old(objectName).None? ==> objectName == (if r.Returned? then r.value else None)
      ensures old(CacheCoherent(valid)) ==> CacheCoherent(valid) && r == Construct(Fields(), valid)
    {
      if objectName.None? {
        var built := ConstructObjectName(valid);
        if built.ThrewNullPointer? {
          return built;
        }
        objectName := built.value;
      }
      r := Returned(objectName);
    }

    /**
     * equals: the same object, or another assignment whose persisted fields
     * compare equal. The result is the field comparison in every case, and
     * the cached name never takes part.
     */
    predicate Equals(other: object?)
      reads this, other
      ensures Equals(other) <==>
        other is JmxBeanSensorAssignment && Equivalent(Fields(), (other as JmxBeanSensorAssignment).Fields())
    {
      if this == other then true
      else if other == null then false
      else if !(other is JmxBeanSensorAssignment) then false
      else Equivalent(Fields(), (other as JmxBeanSensorAssignment).Fields())
    }

    /** hashCode. */
    ghost function HashCode(): (r: Int32)
      reads this
    {
      Hash(Fields())
    }
  }

  /** Assignments that are equal under equals have equal hash codes. */
  lemma EqualsImpliesEqualHashCode(a: JmxBeanSensorAssignment, b: JmxBeanSensorAssignment)
    requires a.Equals(b)
    ensures a.HashCode() == b.HashCode()
  {
    EquivalentSameHash(a.Fields(), b.Fields());
  }

  /** equals is symmetric. */
  lemma EqualsSymmetric(a: JmxBeanSensorAssignment, b: JmxBeanSensorAssignment)
    ensures a.Equals(b) <==> b.Equals(a)
  {
    EquivalentIsEquivalence(a.Fields(), b.Fields(), a.Fields());
  }

  /**
   * A name cached before setDomain is still returned after it: the record
   * built for domain `d` keeps answering `d:type=X` once its domain is `e`.
   */
  method CachedNameSurvivesSetDomain(valid: string -> bool)
    returns (before: Outcome<Option<ObjectName>>, after: Outcome<Option<ObjectName>>, rebuilt: Outcome<Option<ObjectName>>)
    requires valid("d:type=X") && valid("e:type=X")
    ensures before == Returned(Some(ObjectName("d:type=X")))
    ensures after == before
    ensures rebuilt == Returned(Some(ObjectName("e:type=X")))
  {
    var a := new JmxBeanSensorAssignment();
    a.SetDomain(Some("d"));
    a.SetObjectNameParameters(Some([("type", "X")]));
    assert CandidateName("d", [("type", "X")]) == "d:type=X";
    before := a.GetObjectName(valid);
    a.SetDomain(Some("e"));
    after := a.GetObjectName(valid);
    assert CandidateName("e", [("type", "X")]) == "e:type=X";
    rebuilt := a.ConstructObjectName(valid);
  }

  /**
   * A missing name is not cached: a record without parameters answers no
   * name, and once it has parameters the next call builds the name.
   */
  method MissingNameIsRebuilt(valid: string -> bool)
    returns (first: Outcome<Option<ObjectName>>, second: Outcome<Option<ObjectName>>)
    requires valid("java.lang:type=Memory")
    ensures first == Returned(None)
    ensures second == Returned(Some(ObjectName("java.lang:type=Memory")))
  {
    var a := new JmxBeanSensorAssignment();
    a.SetDomain(Some("java.lang"));
    a.SetAttributes(Some({"HeapMemoryUsage"}));
    first := a.GetObjectName(valid);
    a.SetObjectNameParameters(Some([("type", "Memory")]));
    assert CandidateName("java.lang", [("type", "Memory")]) == "java.lang:type=Memory";
    second := a.GetObjectName(valid);
  }

  /**
   * The cache does not take part in equals: two records with the same
   * fields stay equal after one of them has built and cached its name.
   */
  method EqualsIgnoresCachedName(valid: string -> bool) returns (equal: bool, cachedOnOneSide: bool)
    requires valid("java.lang:type=Memory")
    ensures cachedOnOneSide && equal
  {
    var a := new JmxBeanSensorAssignment();
    var b := new JmxBeanSensorAssignment();
    a.SetDomain(Some("java.lang"));
    a.SetObjectNameParameters(Some([("type", "Memory")]));
    b.SetDomain(Some("java.lang"));
    b.SetObjectNameParameters(Some([("type", "Memory")]));
    assert CandidateName("java.lang", [("type", "Memory")]) == "java.lang:type=Memory";
    var name := a.GetObjectName(valid);
    cachedOnOneSide := a.objectName.Some? && b.objectName.None?;
    equal := a.Equals(b);
  }

  /** The two-parameter case keeps insertion order: `type` first, then `name`. */
  lemma GarbageCollectorCandidate()
    ensures CandidateName("java.lang", [("type", "GarbageCollector"), ("name", "PS Scavenge")])
         == "java.lang:type=GarbageCollector,name=PS Scavenge"
  {
    var ps: seq<Entry> := [("type", "GarbageCollector"), ("name", "PS Scavenge")];
    assert ps[1..] == [("name", "PS Scavenge")];
    assert KeyPropertyList(ps) == "type=GarbageCollector" + "," + "name=PS Scavenge";
  }

}
