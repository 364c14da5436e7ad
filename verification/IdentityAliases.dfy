/** Console identities: the alias map built once per roster against the linear
    scan it replaced (console/src/lib/agents.ts). An absent field and an empty
    string behave alike in both, so fields are plain strings. */
module IdentityAliases {
  import opened Strings
  import opened Wrappers

  datatype Agent = Agent(identity: string, memberId: string, agentId: string, labelIdentity: string)

  /** The first non-empty id, "" if there is none. */
  function FirstId(a: Agent): string {
    if a.identity != "" then a.identity else if a.memberId != "" then a.memberId else a.agentId
  }

  function Canonical(a: Agent): string {
    Trim(FirstId(a))
  }

  /** The four alias candidates, trimmed; the label is trimmed when it is read. */
  function Candidates(a: Agent): seq<string> {
    [Trim(a.identity), Trim(a.memberId), Trim(a.agentId), Trim(Trim(a.labelIdentity))]
  }

  predicate Owns(a: Agent, alias: string) {
    alias != "" && alias in Candidates(a)
  }

  // ----- The map -----

  function Put(aliases: map<string, string>, key: string, value: string): map<string, string> {
    if key != "" && key !in aliases then aliases[key := value] else aliases
  }

  function PutAll(aliases: map<string, string>, keys: seq<string>, value: string): map<string, string> {
    if keys == [] then aliases else Put(PutAll(aliases, keys[..|keys| - 1], value), keys[|keys| - 1], value)
  }

  function AliasMap(agents: seq<Agent>): map<string, string> {
    if agents == [] then map[]
    else
      var rest, a := AliasMap(agents[..|agents| - 1]), agents[|agents| - 1];
      if Canonical(a) == "" then rest else PutAll(rest, Candidates(a), Canonical(a))
  }

  /** The inner loop: the first agent to claim an alias keeps it. */
  method AddAliases(aliases: map<string, string>, keys: seq<string>, canonical: string)
    returns (more: map<string, string>)
    ensures more == PutAll(aliases, keys, canonical)
  {
    more := aliases;
    for k := 0 to |keys|
      invariant more == PutAll(aliases, keys[..k], canonical)
    {
      assert keys[..k + 1][..k] == keys[..k];
      if keys[k] != "" && keys[k] !in more {
        more := more[keys[k] := canonical];
      }
    }
    assert keys[..|keys|] == keys;
  }

  method BuildAliasMap(agents: seq<Agent>) returns (aliases: map<string, string>)
    ensures aliases == AliasMap(agents)
  {
    aliases := map[];
    for i := 0 to |agents|
      invariant aliases == AliasMap(agents[..i])
    {
      assert agents[..i + 1][..i] == agents[..i];
      var canonical := Canonical(agents[i]);
      if canonical != "" {
        aliases := AddAliases(aliases, Candidates(agents[i]), canonical);
      }
    }
    assert agents[..|agents|] == agents;
  }

  function FromMap(identity: string, aliases: map<string, string>): string {
    var normalized := Trim(identity);
    if normalized == "" then "" else if normalized in aliases then aliases[normalized] else normalized
  }

  // ----- The scan -----

  function FirstWhere(agents: seq<Agent>, p: Agent -> bool, i: nat): (k: nat)
    requires i <= |agents|
    ensures i <= k <= |agents|
    ensures k < |agents| ==> p(agents[k])
    ensures forall j :: i <= j < k ==> !p(agents[j])
    decreases |agents| - i
  {
    if i == |agents| || p(agents[i]) then i else FirstWhere(agents, p, i + 1)
  }

  /** The first agent from `i` on that has the alias. */
  function FirstOwner(agents: seq<Agent>, alias: string, i: nat): (k: nat)
    requires i <= |agents|
    ensures i <= k <= |agents|
    ensures k < |agents| ==> Owns(agents[k], alias)
    ensures forall j :: i <= j < k ==> !Owns(agents[j], alias)
  {
    FirstWhere(agents, a => Owns(a, alias), i)
  }

  function ScanAnswer(a: Agent, normalized: string): string {
    Trim(if FirstId(a) != "" then FirstId(a) else normalized)
  }

  function FromScan(identity: string, agents: seq<Agent>): string {
    var normalized := Trim(identity);
    if normalized == "" then ""
    else
      var k := FirstOwner(agents, normalized, 0);
      if k < |agents| then ScanAnswer(agents[k], normalized) else normalized
  }

  method Scan(identity: string, agents: seq<Agent>) returns (r: string)
    ensures r == FromScan(identity, agents)
  {
    var normalized := Trim(identity);
    if normalized == "" {
      return "";
    }
    for i := 0 to |agents|
      invariant FirstOwner(agents, normalized, i) == FirstOwner(agents, normalized, 0)
    {
      if Owns(agents[i], normalized) {
        return ScanAnswer(agents[i], normalized);
      }
    }
    r := normalized;
  }

  // ----- What the map holds -----

  predicate NamedOwner(a: Agent, alias: string) {
    Owns(a, alias) && Canonical(a) != ""
  }

  /** The first agent that has the alias and a canonical name. */
  function FirstNamed(agents: seq<Agent>, alias: string): (k: nat)
    ensures k <= |agents|
    ensures k < |agents| ==> NamedOwner(agents[k], alias)
    ensures forall j :: 0 <= j < k ==> !NamedOwner(agents[j], alias)
  {
    FirstWhere(agents, a => NamedOwner(a, alias), 0)
  }

  lemma {:induction false} PutAllSpec(aliases: map<string, string>, keys: seq<string>, value: string, q: string)
    ensures q in PutAll(aliases, keys, value) <==> q in aliases || (q != "" && q in keys)
    ensures q in aliases ==> PutAll(aliases, keys, value)[q] == aliases[q]
    ensures q !in aliases && q != "" && q in keys ==> PutAll(aliases, keys, value)[q] == value
  {
    if keys != [] {
      PutAllSpec(aliases, keys[..|keys| - 1], value, q);
      assert q in keys <==> q in keys[..|keys| - 1] || q == keys[|keys| - 1];
    }
  }

  /** The map answers with the canonical name of the first named agent that has the alias. */
  lemma {:induction false} AliasMapSpec(agents: seq<Agent>, q: string)
    ensures q in AliasMap(agents) <==> FirstNamed(agents, q) < |agents|
    ensures q in AliasMap(agents) ==> AliasMap(agents)[q] == Canonical(agents[FirstNamed(agents, q)])
  {
    if agents != [] {
      var init, a := agents[..|agents| - 1], agents[|agents| - 1];
      AliasMapSpec(init, q);
      NamedPrefix(agents, q);
      if Canonical(a) != "" { PutAllSpec(AliasMap(init), Candidates(a), Canonical(a), q); }
    }
  }

  lemma NamedPrefix(agents: seq<Agent>, q: string)
    requires agents != []
    ensures var init, k := agents[..|agents| - 1], FirstNamed(agents, q);
            if FirstNamed(init, q) < |init| then k == FirstNamed(init, q) else k >= |agents| - 1
  {
    var init := agents[..|agents| - 1];
    var m, k := FirstNamed(init, q), FirstNamed(agents, q);
    assert forall j :: 0 <= j < |init| ==> init[j] == agents[j];
  }

  // ----- Agreement -----

  /** When map and scan agree on a normalized query: the first agent that has the
      alias has a canonical name; or it has no id at all, only a label, and the
      first named agent with that alias, if any, is called by it. */
  predicate Agreeable(agents: seq<Agent>, q: string) {
    var k := FirstOwner(agents, q, 0);
    k < |agents| ==>
      || Canonical(agents[k]) != ""
      || (FirstId(agents[k]) == "" &&
          var m := FirstNamed(agents, q);
          m < |agents| ==> Canonical(agents[m]) == q)
  }

  lemma NamedFollowsOwner(agents: seq<Agent>, q: string)
    ensures FirstOwner(agents, q, 0) <= FirstNamed(agents, q)
    ensures var k := FirstOwner(agents, q, 0);
            k < |agents| && Canonical(agents[k]) != "" ==> FirstNamed(agents, q) == k
  {}

  /** For every roster and query, the map and the scan give the same answer if and
      only if the query is blank or agreeable. */
  lemma MapEqualsScanIff(agents: seq<Agent>, identity: string)
    ensures FromMap(identity, AliasMap(agents)) == FromScan(identity, agents)
            <==> Trim(identity) == "" || Agreeable(agents, Trim(identity))
  {
    var q := Trim(identity);
    AliasMapSpec(agents, q);
    NamedFollowsOwner(agents, q);
    TrimIsIdempotent(identity);
  }

  /** In particular when every agent's first id is there and not blank. */
  lemma MapEqualsScan(agents: seq<Agent>, identity: string)
    requires forall a :: a in agents ==> Canonical(a) != ""
    ensures FromMap(identity, AliasMap(agents)) == FromScan(identity, agents)
  {
    MapEqualsScanIff(agents, identity);
  }

  /** A blank first id: the scan answers "", the map leaves the query alone. */
  lemma BlankIdDiverges()
    ensures var agents := [Agent(" ", "m", "", "")];
            FromScan("m", agents) == "" && FromMap("m", AliasMap(agents)) == "m"
  {
    var agents := [Agent(" ", "m", "", "")];
    assert Trim(" ") == "" && Trim("m") == "m" by { assert " "[1..] == "" && "m"[..0] == ""; }
    assert Candidates(agents[0])[1] == "m";
    AliasMapSpec(agents, "m");
  }

  /** A label-only agent: the scan stops at it, the map does not. */
  lemma LabelOnlyDiverges()
    ensures var agents := [Agent("", "", "", "x"), Agent("y", "", "", "x")];
            FromScan("x", agents) == "x" && FromMap("x", AliasMap(agents)) == "y"
  {
    var agents := [Agent("", "", "", "x"), Agent("y", "", "", "x")];
    assert Trim("x") == "x" && Trim("y") == "y";
    assert Candidates(agents[0])[3] == "x" && Candidates(agents[1])[3] == "x";
    AliasMapSpec(agents, "x");
  }

  // ----- Idempotence -----

  ghost predicate DisjointAliases(agents: seq<Agent>) {
    forall i, j, q :: 0 <= i < j < |agents| && Owns(agents[i], q) ==> !Owns(agents[j], q)
  }

  lemma CanonicalIsAlias(a: Agent)
    requires Canonical(a) != ""
    ensures Owns(a, Canonical(a))
  {
    assert Candidates(a)[0] == Trim(a.identity) && Candidates(a)[1] == Trim(a.memberId)
           && Candidates(a)[2] == Trim(a.agentId);
  }

  /** The query is answered by an agent whose name, asked for in turn, is answered by
      an agent of that name. */
  predicate Settled(agents: seq<Agent>, q: string) {
    var k := FirstNamed(agents, q);
    k < |agents| ==>
      var c := Canonical(agents[k]);
      var m := FirstNamed(agents, c);
      m < |agents| && Canonical(agents[m]) == c
  }

  /** For every roster and query, canonicalising twice is canonicalising once if and
      only if the query is blank or settled. */
  lemma CanonicalisationIsIdempotentIff(agents: seq<Agent>, identity: string)
    ensures var aliases := AliasMap(agents);
            FromMap(FromMap(identity, aliases), aliases) == FromMap(identity, aliases)
            <==> Trim(identity) == "" || Settled(agents, Trim(identity))
  {
    var aliases, q := AliasMap(agents), Trim(identity);
    TrimIsIdempotent(identity);
    AliasMapSpec(agents, q);
    if q != "" && q in aliases {
      var k := FirstNamed(agents, q);
      var c := Canonical(agents[k]);
      CanonicalIsAlias(agents[k]);
      TrimIsIdempotent(FirstId(agents[k]));
      AliasMapSpec(agents, c);
      assert !NamedOwner(agents[k], c) ==> FirstNamed(agents, c) != k;
    } else if q == "" {
      assert Trim("") == "";
    }
  }

  /** In particular when no two agents share an alias. */
  lemma CanonicalisationIsIdempotent(agents: seq<Agent>, identity: string)
    requires DisjointAliases(agents)
    ensures var aliases := AliasMap(agents);
            FromMap(FromMap(identity, aliases), aliases) == FromMap(identity, aliases)
  {
    CanonicalisationIsIdempotentIff(agents, identity);
    var q := Trim(identity);
    var k := FirstNamed(agents, q);
    if q != "" && k < |agents| {
      CanonicalIsAlias(agents[k]);
      assert NamedOwner(agents[k], Canonical(agents[k]));
      assert FirstNamed(agents, Canonical(agents[k])) == k;
    }
  }

  /** Two agents that share an alias: "a" is answered with "b", which is answered with "c". */
  lemma SharedAliasIsNotIdempotent()
    ensures var aliases := AliasMap([Agent("c", "b", "", ""), Agent("b", "a", "", "")]);
            FromMap("a", aliases) == "b" && FromMap("b", aliases) == "c"
  {
    var agents := [Agent("c", "b", "", ""), Agent("b", "a", "", "")];
    assert Trim("a") == "a" && Trim("b") == "b" && Trim("c") == "c" && Trim("") == "";
    assert Candidates(agents[0]) == ["c", "b", "", ""] && Candidates(agents[1]) == ["b", "a", "", ""];
    assert Owns(agents[0], "b") by { assert Candidates(agents[0])[1] == "b"; }
    assert Owns(agents[1], "a") && !Owns(agents[0], "a") by { assert Candidates(agents[1])[1] == "a"; }
    AliasMapSpec(agents, "a");
    AliasMapSpec(agents, "b");
    assert NamedOwner(agents[0], "b") && NamedOwner(agents[1], "a");
    assert FirstNamed(agents, "b") == 0 && FirstNamed(agents, "a") == 1;
  }
}
