/** How the descriptors of services and clusters are read (backend/orchestrator/graph.js): the normal
    form of a name, and which names a service or cluster depends on. */
module ServiceNames {
  import opened JsText
  import opened Options
  import opened Graph
  import opened DependencyOrder

  predicate Blank(s: string) {
    forall i :: 0 <= i < |s| ==> IsSpace(s[i])
  }

  lemma {:induction false} TrimStartBlank(blank: string, s: string)
    requires Blank(blank) && (s == "" || !IsSpace(s[0]))
    ensures TrimStart(blank + s) == s
    decreases |blank|
  {
    if blank == "" {
      assert blank + s == s;
    } else {
      assert (blank + s)[1..] == blank[1..] + s;
      TrimStartBlank(blank[1..], s);
    }
  }

  lemma {:induction false} TrimEndBlank(s: string, blank: string)
    requires Blank(blank) && (s == "" || !IsSpace(s[|s| - 1]))
    ensures TrimEnd(s + blank) == s
    decreases |blank|
  {
    if blank == "" {
      assert s + blank == s;
    } else {
      assert (s + blank)[..|s + blank| - 1] == s + blank[..|blank| - 1];
      TrimEndBlank(s, blank[..|blank| - 1]);
    }
  }

  predicate NoBlankEnds(name: string) {
    name != "" ==> !IsSpace(name[0]) && !IsSpace(name[|name| - 1])
  }

  lemma TrimSurrounded(before: string, name: string, after: string)
    requires Blank(before) && Blank(after) && NoBlankEnds(name) && (name == "" ==> after == "")
    ensures Trim(before + (name + after)) == name
  {
    TrimStartBlank(before, name + after);
    TrimEndBlank(name, after);
  }

  /** `short` is `name` with small letters for capitals. */
  predicate Lowered(name: string, short: string) {
    |short| == |name| && forall i :: 0 <= i < |name| ==>
      short[i] == if 'A' <= name[i] <= 'Z' then name[i] - 'A' + 'a' else name[i]
  }

  lemma NormalizedTrim(value: string, name: string)
    requires Trim(value) == name
    ensures Lowered(name, Normalize(value))
  {
    var short := Normalize(value);
    forall i | 0 <= i < |name|
      ensures short[i] == if 'A' <= name[i] <= 'Z' then name[i] - 'A' + 'a' else name[i]
    {
      assert short[i] == LowerChar(name[i]);
    }
  }

  /** Surrounding white space goes, and letters become small ones; a blank name becomes empty. */
  lemma NormalizedName(before: string, name: string, after: string)
    requires Blank(before) && Blank(after) && NoBlankEnds(name) && (name == "" ==> after == "")
    ensures Lowered(name, Normalize(before + (name + after)))
  {
    TrimSurrounded(before, name, after);
    NormalizedTrim(before + (name + after), name);
  }

  /** A dependency is listed under some spelling of its name. */
  predicate Listed(names: Option<seq<string>>, d: string) {
    names.Some? && d != "" && exists n :: n in names.value && Normalize(n) == d
  }

  /** Service starts read `dependencies` alone; service stops, and clusters, read `dependsOn` if it is
      there, even empty, and `dependencies` otherwise. */
  lemma EdgesListed(defs: Definitions, s: string, d: string)
    ensures Edge(ServiceGraph(defs), s, d) <==> s in defs.entries && Listed(defs.entries[s].dependencies, d)
    ensures Edge(ClusterGraph(defs), s, d) <==>
      s in defs.entries &&
      Listed(if defs.entries[s].dependsOn.Some? then defs.entries[s].dependsOn else defs.entries[s].dependencies, d)
  {
    if s in defs.entries {
      EdgesRead(defs, s);
    }
  }
}
