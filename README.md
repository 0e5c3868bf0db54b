# JMX bean sensor assignment, modelled in Dafny

`JmxBeanSensorAssignment` (inspectIT's shared configuration interfaces) tells a JMX
sensor which MBean to sample and which of its attributes. It holds a domain, a map
of object-name parameters and a set of attribute names, all three persisted; a
transient cache of the object name built from them; structural `equals` and a
prime-31 `hashCode` over the three persisted fields.

The project has five modules, one file each:

- `Wrappers` (`wrappers.dfy`): `Option`, standing for a Java reference that may be null.
- `JavaHash` (`java_hash.dfy`): Java's 32-bit wrap-around, `String.hashCode`,
  `^`, and `Set.hashCode` as the sum of element hashes over a set in any order.
- `ParameterMaps` (`parameter_maps.dfy`): the parameter map as the sequence of its
  entries in iteration order with distinct keys (`Params`); `Map.equals` as
  equality of entry sets, `Map.hashCode` as the sum of `key ^ value` hashes, and
  proofs that both ignore the iteration order.
- `ObjectNames` (`object_names.dfy`): the candidate string
  `domain:k1=v1,k2=v2,...`, its hand-over to the `ObjectName` parser, and an
  inverse that reads a plain candidate string back, proving that the string
  loses nothing (order included).
- `JmxAssignment` (`jmx_assignment.dfy`): the persisted fields as a value
  (`Persisted`), the closed form `Construct` of `constructObjectName`, the
  field comparison `Equivalent` of `equals`, `Hash` for `hashCode`; the class
  `JmxBeanSensorAssignment` with the four fields, the getters and setters, the
  loop of `constructObjectName`, the cache of `getObjectName` and `equals`;
  lemmas and small client scenarios.

The `ObjectName` parser is foreign code. Every operation that parses takes it as a
parameter `valid: string -> bool`, the set of strings the parser accepts; an
accepted string yields the object name of that string. `new StringBuilder(domain)`
throws a `NullPointerException` when the domain is null and there are parameters;
this is the outcome `ThrewNullPointer`, not a precondition.

In the code a null result is the same as an empty cache, so the next call builds
the name again (`MissingNameIsRebuilt`), and no setter clears the cache, so a
cached name outlives `setDomain` (`CachedNameSurvivesSetDomain`).

## Model

| member | source | states |
|---|---|---|
| `JavaHash.SumRemove` | inspectit.shared.cs/src/main/java/rocks/inspectit/shared/cs/ci/assignment/impl/JmxBeanSensorAssignment.java:171 | The sum behind `Set.hashCode` does not depend on the order in which the set is iterated: any element can be taken out first. |
| `JavaHash.WrappedSumInsert` | inspectit.shared.cs/src/main/java/rocks/inspectit/shared/cs/ci/assignment/impl/JmxBeanSensorAssignment.java:171 | Adding a new element to a set adds its hash code, modulo 2^32, to the wrapped sum. |
| `ParameterMaps.ToMapAgreesWithEntrySet` | inspectit.shared.cs/src/main/java/rocks/inspectit/shared/cs/ci/assignment/impl/JmxBeanSensorAssignment.java:41 | For entries with distinct keys, the key-to-value map has exactly the entries' keys, and a pair is an entry exactly when the map sends its key to its value. |
| `ParameterMaps.SameMappingsIffSameMap` | inspectit.shared.cs/src/main/java/rocks/inspectit/shared/cs/ci/assignment/impl/JmxBeanSensorAssignment.java:210 | Map equality, taken as equality of entry sets, holds exactly when the two key-to-value mappings are equal, whatever the iteration orders. |
| `ParameterMaps.MapHashIsEntrySetSum` | inspectit.shared.cs/src/main/java/rocks/inspectit/shared/cs/ci/assignment/impl/JmxBeanSensorAssignment.java:173 | The map hash accumulated in iteration order equals the wrapped sum of the entry hashes over the entry set. |
| `ParameterMaps.SameMappingsSameHash` | inspectit.shared.cs/src/main/java/rocks/inspectit/shared/cs/ci/assignment/impl/JmxBeanSensorAssignment.java:173 | Two maps with equal entry sets have equal hash codes, however differently they iterate. |
| `ObjectNames.KeyPropertyListSnoc` | inspectit.shared.cs/src/main/java/rocks/inspectit/shared/cs/ci/assignment/impl/JmxBeanSensorAssignment.java:144-151 | Appending an entry to a non-empty list extends the key property list by a comma and `key=value`, which is what one more loop turn appends. |
| `ObjectNames.DecomposeCandidate` | inspectit.shared.cs/src/main/java/rocks/inspectit/shared/cs/ci/assignment/impl/JmxBeanSensorAssignment.java:141-152 | A candidate string built from a colon-free domain and non-empty entries whose keys lack `=` and `,` and whose values lack `,` reads back as that domain and those entries in that order. |
| `ObjectNames.CandidateNameInjective` | inspectit.shared.cs/src/main/java/rocks/inspectit/shared/cs/ci/assignment/impl/JmxBeanSensorAssignment.java:141-152 | For such inputs, equal candidate strings mean equal domains and equal entry sequences. |
| `JmxAssignment.ConstructWithoutParameters` | inspectit.shared.cs/src/main/java/rocks/inspectit/shared/cs/ci/assignment/impl/JmxBeanSensorAssignment.java:139-161 | With a null or empty parameter map, construction returns no name and throws nothing, whatever the domain. |
| `JmxAssignment.ConstructOutcomes` | inspectit.shared.cs/src/main/java/rocks/inspectit/shared/cs/ci/assignment/impl/JmxBeanSensorAssignment.java:138-162 | Construction throws exactly when there are parameters and the domain is null. It returns a name exactly when there are parameters, a domain and the parser accepts the candidate string, and that name is the candidate string. A rejected string gives no name and no exception. |
| `JmxAssignment.EquivalentIsEquivalence` | inspectit.shared.cs/src/main/java/rocks/inspectit/shared/cs/ci/assignment/impl/JmxBeanSensorAssignment.java:192-213 | The null-safe comparison of the three fields is reflexive, symmetric and transitive; two nulls in a field compare equal. |
| `JmxAssignment.EquivalentSameHash` | inspectit.shared.cs/src/main/java/rocks/inspectit/shared/cs/ci/assignment/impl/JmxBeanSensorAssignment.java:168-175 | Records whose fields compare equal have equal hash codes, including maps that are equal but iterate differently. |
| `JmxAssignment.AllNullHash` | inspectit.shared.cs/src/main/java/rocks/inspectit/shared/cs/ci/assignment/impl/JmxBeanSensorAssignment.java:168-175 | With all three fields null the hash code is 31 * 31 * 31 = 29791. |
| `JmxAssignment.ReorderedParametersNameDifferently` | inspectit.shared.cs/src/main/java/rocks/inspectit/shared/cs/ci/assignment/impl/JmxBeanSensorAssignment.java:143-150 | Two equal records whose maps hold the same plain entries in different iteration orders build different candidate strings: equality ignores order, construction does not. |
| `JmxAssignment.EqualRecordsDifferentCandidates` | inspectit.shared.cs/src/main/java/rocks/inspectit/shared/cs/ci/assignment/impl/JmxBeanSensorAssignment.java:143-150 | The records with `{a=1, b=2}` inserted in the two orders are equal, and their candidate strings are `d:a=1,b=2` and `d:b=2,a=1`. |
| `JmxAssignment.GarbageCollectorCandidate` | inspectit.shared.cs/src/main/java/rocks/inspectit/shared/cs/ci/assignment/impl/JmxBeanSensorAssignment.java:141-152 | Domain `java.lang` with `type=GarbageCollector` then `name=PS Scavenge` gives `java.lang:type=GarbageCollector,name=PS Scavenge`, in insertion order. |
| `JmxAssignment.JmxBeanSensorAssignment.constructor` | inspectit.shared.cs/src/main/java/rocks/inspectit/shared/cs/ci/assignment/impl/JmxBeanSensorAssignment.java:29-52 | A new assignment has every field null and an empty cache. |
| `JmxAssignment.JmxBeanSensorAssignment.GetDomain` | inspectit.shared.cs/src/main/java/rocks/inspectit/shared/cs/ci/assignment/impl/JmxBeanSensorAssignment.java:67-69 | Returns the domain and changes nothing. |
| `JmxAssignment.JmxBeanSensorAssignment.SetDomain` | inspectit.shared.cs/src/main/java/rocks/inspectit/shared/cs/ci/assignment/impl/JmxBeanSensorAssignment.java:77-79 | Sets the domain; the other fields and the cached name are unchanged. |
| `JmxAssignment.JmxBeanSensorAssignment.GetObjectNameParameters` | inspectit.shared.cs/src/main/java/rocks/inspectit/shared/cs/ci/assignment/impl/JmxBeanSensorAssignment.java:86-88 | Returns the parameter map and changes nothing. |
| `JmxAssignment.JmxBeanSensorAssignment.SetObjectNameParameters` | inspectit.shared.cs/src/main/java/rocks/inspectit/shared/cs/ci/assignment/impl/JmxBeanSensorAssignment.java:96-98 | Sets the parameter map; the other fields and the cached name are unchanged. |
| `JmxAssignment.JmxBeanSensorAssignment.GetAttributes` | inspectit.shared.cs/src/main/java/rocks/inspectit/shared/cs/ci/assignment/impl/JmxBeanSensorAssignment.java:105-107 | Returns the attribute set and changes nothing. |
| `JmxAssignment.JmxBeanSensorAssignment.SetAttributes` | inspectit.shared.cs/src/main/java/rocks/inspectit/shared/cs/ci/assignment/impl/JmxBeanSensorAssignment.java:115-117 | Sets the attribute set; the other fields and the cached name are unchanged. |
| `JmxAssignment.JmxBeanSensorAssignment.ConstructObjectName` | inspectit.shared.cs/src/main/java/rocks/inspectit/shared/cs/ci/assignment/impl/JmxBeanSensorAssignment.java:138-162 | The builder loop over the entries produces exactly `domain + ":" + ` the comma-joined `key=value` list, with no leading or trailing comma, so the method's outcome is `Construct` of the current fields. |
| `JmxAssignment.JmxBeanSensorAssignment.GetObjectName` | inspectit.shared.cs/src/main/java/rocks/inspectit/shared/cs/ci/assignment/impl/JmxBeanSensorAssignment.java:124-130 | A cached name is returned unchanged. With an empty cache the name is built and stored, and a null result leaves the cache empty. An exception leaves the cache as it was. A cache that matched the fields still matches, and the answer is then what construction from the current fields gives. |
| `JmxAssignment.JmxBeanSensorAssignment.Equals` | inspectit.shared.cs/src/main/java/rocks/inspectit/shared/cs/ci/assignment/impl/JmxBeanSensorAssignment.java:181-214 | The identity shortcut agrees with the field comparison: the result is true exactly when the other object is an assignment whose attributes, domain and parameter map compare equal. The cached name is never consulted. |
| `JmxAssignment.EqualsImpliesEqualHashCode` | inspectit.shared.cs/src/main/java/rocks/inspectit/shared/cs/ci/assignment/impl/JmxBeanSensorAssignment.java:168-214 | Assignments equal under `equals` have equal `hashCode`. |
| `JmxAssignment.EqualsSymmetric` | inspectit.shared.cs/src/main/java/rocks/inspectit/shared/cs/ci/assignment/impl/JmxBeanSensorAssignment.java:181-214 | `a.equals(b)` exactly when `b.equals(a)`. |
| `JmxAssignment.CachedNameSurvivesSetDomain` | inspectit.shared.cs/src/main/java/rocks/inspectit/shared/cs/ci/assignment/impl/JmxBeanSensorAssignment.java:124-130 | After a name for domain `d` is cached, `setDomain("e")` does not clear it: `getObjectName` still answers `d:type=X`, while construction from the new fields gives `e:type=X`. |
| `JmxAssignment.MissingNameIsRebuilt` | inspectit.shared.cs/src/main/java/rocks/inspectit/shared/cs/ci/assignment/impl/JmxBeanSensorAssignment.java:124-130 | Without parameters the answer is no name. Once parameters `type=Memory` are set, the next call builds `java.lang:type=Memory`. |
| `JmxAssignment.EqualsIgnoresCachedName` | inspectit.shared.cs/src/main/java/rocks/inspectit/shared/cs/ci/assignment/impl/JmxBeanSensorAssignment.java:181-214 | Two records with the same fields stay equal after only one of them has cached its name. |

## Left out

- XML binding: the JAXB annotations and (un)marshalling are framework code.
- The `ObjectName` grammar, quoting and canonical form are foreign library code. The parser is the parameter `valid`, and a parsed name keeps the string it came from.
- Concurrency: the unsynchronised cache write seen from several threads is not modelled; every method runs on one thread.
- getSensorConfigClass returns a class object by reflection. `GetSensorConfigClass` returns the single tag `JmxSensorConfig` and has no contract, because its result type has only that value.
- Java nulls inside the collections (a null key, value or attribute name) are not modelled: keys, values and names are strings.
- Aliasing: the Java getters hand out the live map and set, and a caller could change the record through them. The model passes the collections as values.
- `equals` compares classes with `getClass()`. Dafny classes cannot be extended, so only "is an assignment or not" is modelled, with `is`.
- Hash: a Java int is kept as its bit pattern read as a number in [0, 2^32); the value is the same as Java's up to that reading.
- Hash: `String.hashCode` adds one code per Dafny character (a Unicode scalar value); Java adds UTF-16 code units, so it differs for characters outside the Basic Multilingual Plane.
- The parameter map is modelled through its iteration order. For a map that does not keep insertion order, that order is whatever its entry set yields, and the model says nothing about which order that is.
