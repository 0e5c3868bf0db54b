/**
 * JMX object names as the assignment builds them: the candidate string
 * `domain:key1=value1,key2=value2,...` and its hand-over to the ObjectName
 * parser. The parser (javax.management.ObjectName's constructor) is foreign
 * code; it is a parameter `valid` that says which strings it accepts. An
 * accepted string yields the object name of that very string.
 */
module ObjectNames {

  import opened Wrappers
  import opened ParameterMaps

  /** A parsed object name, holding the string it was parsed from. */
  datatype ObjectName = ObjectName(name: string)

  /** `new ObjectName(s)`, with MalformedObjectNameException turned into None. */
  function Parse(s: string, valid: string -> bool): (r: Option<ObjectName>)
  {
    if valid(s) then Some(ObjectName(s)) else None
  }

  /** One key property, `key=value`. */
  function KeyProperty(e: Entry): (r: string)
  {
    e.0 + "=" + e.1
  }

  /** The key properties of the entries joined by commas, in order. */
  function KeyPropertyList(ps: seq<Entry>): (r: string)
  {
    if |ps| == 0 then ""
    else if |ps| == 1 then KeyProperty(ps[0])
    else KeyProperty(ps[0]) + "," + KeyPropertyList(ps[1..])
  }

  /** The candidate object-name string for a domain and parameter entries. */
  function CandidateName(domain: string, ps: seq<Entry>): (r: string)
  {
    domain + ":" + KeyPropertyList(ps)
  }

  /** Appending an entry to a non-empty list appends a comma and its key property. */
  lemma {:induction false} KeyPropertyListSnoc(ps: seq<Entry>, e: Entry)
    requires |ps| > 0
    ensures KeyPropertyList(ps + [e]) == KeyPropertyList(ps) + "," + KeyProperty(e)
  {
    if |ps| > 1 {
      assert (ps + [e])[1..] == ps[1..] + [e];
      KeyPropertyListSnoc(ps[1..], e);
    } else {
      assert (ps + [e])[1..] == [e];
    }
  }

  // The inverse of the candidate construction, for strings in the plain
  // (unquoted) form of the object-name grammar.

  /** Splits s at the first occurrence of c, if there is one. */
  function SplitAtFirst(s: string, c: char): (r: Option<(string, string)>)
  {
    if |s| == 0 then None
    else if s[0] == c then Some(("", s[1..]))
    else match SplitAtFirst(s[1..], c)
      case None => None
      case Some(parts) => Some(([s[0]] + parts.0, parts.1))
  }

  /** Splits s at every occurrence of sep. */
  function Split(s: string, sep: char): (parts: seq<string>)
    ensures |parts| > 0
  {
    if |s| == 0 then [""]
    else
      var rest := Split(s[1..], sep);
      if s[0] == sep then [""] + rest else [[s[0]] + rest[0]] + rest[1..]
  }

  /** Reads each `key=value` piece back into an entry. */
  function ReadKeyProperties(pieces: seq<string>): (r: Option<seq<Entry>>)
  {
    if |pieces| == 0 then Some([])
    else match (SplitAtFirst(pieces[0], '='), ReadKeyProperties(pieces[1..]))
      case (Some(e), Some(rest)) => Some([e] + rest)
      case _ => None
  }

  /** Reads a candidate string back into its domain and its entries. */
  function Decompose(name: string): (r: Option<(string, seq<Entry>)>)
  {
    match SplitAtFirst(name, ':')
    case None => None
    case Some(parts) =>
      match ReadKeyProperties(Split(parts.1, ','))
      case None => None
      case Some(ps) => Some((parts.0, ps))
  }

  /** The key properties of the entries, one string each. */
  function KeyProperties(ps: seq<Entry>): (pieces: seq<string>)
    ensures |pieces| == |ps|
  {
    if |ps| == 0 then [] else [KeyProperty(ps[0])] + KeyProperties(ps[1..])
  }

  /** Keys free of `=` and `,`, values free of `,`: the shape the parser reads unquoted. */
  predicate PlainEntries(ps: seq<Entry>)
  {
    forall i :: 0 <= i < |ps| ==> '=' !in ps[i].0 && ',' !in ps[i].0 && ',' !in ps[i].1
  }

  /** Splitting at the first c finds the c that follows a c-free prefix. */
  lemma {:induction false} SplitAtFirstConcat(a: string, b: string, c: char)
    requires c !in a
    ensures SplitAtFirst(a + [c] + b, c) == Some((a, b))
  {
    if |a| == 0 {
      assert a + [c] + b == [c] + b;
    } else {
      assert (a + [c] + b)[1..] == a[1..] + [c] + b;
      SplitAtFirstConcat(a[1..], b, c);
      assert [a[0]] + a[1..] == a;
    }
  }

  /** A string without the separator splits into itself alone. */
  lemma {:induction false} SplitWithout(a: string, sep: char)
    requires sep !in a
    ensures Split(a, sep) == [a]
  {
    if |a| > 0 {
      SplitWithout(a[1..], sep);
      assert [a[0]] + a[1..] == a;
    }
  }

  /** A separator after a separator-free prefix splits off that prefix as the first piece. */
  lemma {:induction false} SplitConcat(a: string, b: string, sep: char)
    requires sep !in a
    ensures Split(a + [sep] + b, sep) == [a] + Split(b, sep)
  {
    if |a| == 0 {
      assert a + [sep] + b == [sep] + b;
      assert ([sep] + b)[1..] == b;
    } else {
      assert (a + [sep] + b)[1..] == a[1..] + [sep] + b;
      SplitConcat(a[1..], b, sep);
      assert [a[0]] + a[1..] == a;
    }
  }

  /** Splitting a plain key property list at commas gives back its key properties. */
  lemma {:induction false} SplitKeyPropertyList(ps: seq<Entry>)
    requires |ps| > 0 && PlainEntries(ps)
    ensures Split(KeyPropertyList(ps), ',') == KeyProperties(ps)
  {
    assert ',' !in KeyProperty(ps[0]);
    if |ps| == 1 {
      SplitWithout(KeyProperty(ps[0]), ',');
    } else {
      assert PlainEntries(ps[1..]) by {
        forall i | 0 <= i < |ps| - 1 ensures '=' !in ps[1..][i].0 && ',' !in ps[1..][i].0 && ',' !in ps[1..][i].1 {
          assert ps[1..][i] == ps[i + 1];
        }
      }
      SplitKeyPropertyList(ps[1..]);
      SplitConcat(KeyProperty(ps[0]), KeyPropertyList(ps[1..]), ',');
    }
  }

  /** Each plain key property reads back as its entry. */
  lemma {:induction false} ReadKeyPropertiesInverse(ps: seq<Entry>)
    requires PlainEntries(ps)
    ensures ReadKeyProperties(KeyProperties(ps)) == Some(ps)
  {
    if |ps| > 0 {
      SplitAtFirstConcat(ps[0].0, ps[0].1, '=');
      assert KeyProperty(ps[0]) == ps[0].0 + ['='] + ps[0].1;
      assert PlainEntries(ps[1..]) by {
        forall i | 0 <= i < |ps| - 1 ensures '=' !in ps[1..][i].0 && ',' !in ps[1..][i].0 && ',' !in ps[1..][i].1 {
          assert ps[1..][i] == ps[i + 1];
        }
      }
      ReadKeyPropertiesInverse(ps[1..]);
      assert KeyProperties(ps)[1..] == KeyProperties(ps[1..]);
      assert [ps[0]] + ps[1..] == ps;
    }
  }

  /**
   * Round trip: a candidate string built from a colon-free domain and plain,
   * non-empty entries reads back as exactly that domain and those entries,
   * in that order.
   */
  lemma DecomposeCandidate(domain: string, ps: seq<Entry>)
    requires ':' !in domain && |ps| > 0 && PlainEntries(ps)
    ensures Decompose(CandidateName(domain, ps)) == Some((domain, ps))
  {
    SplitAtFirstConcat(domain, KeyPropertyList(ps), ':');
    assert CandidateName(domain, ps) == domain + [':'] + KeyPropertyList(ps);
    SplitKeyPropertyList(ps);
    ReadKeyPropertiesInverse(ps);
  }

  /**
   * The candidate string determines the domain and the entries: two plain
   * inputs with the same candidate string are the same, order included.
   */
  lemma CandidateNameInjective(d1: string, ps1: seq<Entry>, d2: string, ps2: seq<Entry>)
    requires ':' !in d1 && |ps1| > 0 && PlainEntries(ps1)
    requires ':' !in d2 && |ps2| > 0 && PlainEntries(ps2)
    requires CandidateName(d1, ps1) == CandidateName(d2, ps2)
    ensures d1 == d2 && ps1 == ps2
  {
    DecomposeCandidate(d1, ps1);
    DecomposeCandidate(d2, ps2);
  }

}
