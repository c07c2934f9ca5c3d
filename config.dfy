/** The data the tool moves around: the six supported section headers,
    address objects, and objects grouped by section. */
module Config {
  import opened Text
  import opened AssocLists

  /** `SECTIONS_SUPPORTÉES`, in the order the writer emits them. */
  const Supported: seq<string> := [
    "config firewall address",
    "config firewall multicast-address",
    "config firewall address6",
    "config firewall multicast-address6",
    "config firewall addrgrp",
    "config firewall wildcard-fqdn custom"
  ]

  /** An address object: an insertion-ordered dict from attribute to value. */
  type Obj = AList<string>

  /** `{section: [objects]}`; the key order of these dicts is never observed. */
  type Sections = map<string, seq<Obj>>

  /** `d.get(section, [])` */
  function Objects(m: Sections, s: string): seq<Obj> {
    if s in m then m[s] else []
  }

  predicate HasName(o: Obj) {
    "name" in Keys(o)
  }

  /** `o['name']` */
  function NameOf(o: Obj): string
    requires HasName(o)
  {
    Lookup(o, "name").value
  }

  /** A key as `split()` produces it: non-empty and free of whitespace. */
  predicate ValidKey(k: string) {
    k != [] && NoSpace(k)
  }

  /** Attributes as the parser collects them: unique keys, no `uuid`, keys
      that are single tokens and values with every enclosing quote removed. */
  predicate WellKeyed(o: Obj) {
    && UniqueKeys(o)
    && forall p :: p in o ==> p.0 != "uuid" && ValidKey(p.0) && EndsFree(p.1, '"')
  }

  /** An object as the parser builds it: `name` first, then its attributes. */
  predicate Shaped(o: Obj) {
    |o| >= 1 && o[0].0 == "name" && WellKeyed(o)
  }

  predicate AllShaped(m: Sections) {
    forall s, o :: s in m && o in m[s] ==> Shaped(o)
  }

  predicate AllNamed(m: Sections) {
    forall s, o :: s in m && o in m[s] ==> HasName(o)
  }

  /** A supported header is a trimmed line starting with `config `, so no
      line the writer emits for an object, and no `end`, is one. */
  lemma {:induction false} SupportedHeaders(s: string)
    requires s in Supported
    ensures s != [] && Trimmed(s) && StartsWith(s, "config ")
  {
  }

  /** `s` is one of the first `n` supported headers. */
  predicate Visited(n: nat, s: string)
    requires n <= |Supported|
  {
    n > 0 && (Supported[n - 1] == s || Visited(n - 1, s))
  }

  lemma {:induction false} VisitedAll(n: nat, s: string)
    requires n <= |Supported|
    ensures Visited(n, s) <==> s in Supported[..n]
  {
    if n > 0 {
      VisitedAll(n - 1, s);
      assert Supported[..n] == Supported[..n - 1] + [Supported[n - 1]];
    }
  }

  lemma {:induction false} SupportedDistinct()
    ensures Distinct(Supported)
  {
  }
}
