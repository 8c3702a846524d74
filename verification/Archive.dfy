/**
 The artifact store as the program runs it (src/mitosis/artifacts.py): tables held in fields,
 folds as loops, the lineage walk as a recursive method with its set of artifacts seen. Every
 method is tied to the function of `Artifacts` it computes.
 */
module Archive {
  import opened Basics
  import opened Artifacts

  method UnionOfTaints(all: seq<Provenance>) returns (taints: set<Taint>)
    ensures taints == Taints(all)
    ensures forall t :: t in taints <==> exists i :: 0 <= i < |all| && t in all[i].taints
  {
    taints := {};
    for i := 0 to |all|
      invariant taints == Taints(all[..i])
    {
      assert all[..i + 1][..i] == all[..i];
      taints := taints + all[i].taints;
    }
    assert all[..|all|] == all;
  }

  /** `_most_restrictive` over the precedence prohibited, unknown, permitted. */
  method MostRestrictive(values: seq<Use>) returns (use: Use)
    ensures use == MostRestrictiveUse(values)
  {
    var precedence := [Prohibited, UnknownUse, Permitted];
    for i := 0 to |precedence|
      invariant forall k :: 0 <= k < i ==> precedence[k] !in values
    {
      if precedence[i] in values {
        assert i >= 1 ==> precedence[0] !in values;
        assert i >= 2 ==> precedence[1] !in values;
        return precedence[i];
      }
    }
    assert precedence[0] !in values && precedence[1] !in values && precedence[2] !in values;
    return UnknownUse;
  }

  class ArtifactTable {
    var cells: set<nat>
    var tools: map<nat, Tool>
    var attestations: seq<Attestation>
    var artifacts: seq<Row>

    constructor ()
      ensures State() == EMPTY
    {
      cells, tools, attestations, artifacts := {}, map[], [], [];
    }

    function State(): Store
      reads this
    {
      Store(cells, tools, attestations, artifacts)
    }

    /** `rights.current`: read backwards to the first attestation on the subject. */
    method CurrentAttestation(subject: Subject) returns (r: Option<Use>)
      ensures r == Current(attestations, subject)
    {
      var i := |attestations|;
      assert attestations[..i] == attestations;
      while i > 0
        invariant 0 <= i <= |attestations|
        invariant Current(attestations, subject) == Current(attestations[..i], subject)
      {
        assert attestations[..i][..i - 1] == attestations[..i - 1];
        if attestations[i - 1].subject == subject {
          return Some(attestations[i - 1].use);
        }
        i := i - 1;
      }
      return None;
    }

    method RecordAttestation(a: Attestation)
      modifies this`attestations
      ensures State() == Next(old(State()), Attest(a))
      ensures Current(attestations, a.subject) == Some(a.use)
    {
      attestations := attestations + [a];
    }

    method ProvenanceOfToolCall(id: nat) returns (r: Result<Provenance, Error>)
      ensures r == OfTool(State(), id)
    {
      if id !in tools {
        return Err(NoSucceededToolCall);
      }
      var t := tools[id];
      var taints := if t.taint.Some? then {t.taint.value} else {};
      var recorded := Provenance(t.use, t.personal, taints);
      if t.host.None? {
        return Ok(recorded);
      }
      var position := CurrentAttestation(Domain(t.host.value));
      return Ok(if position.Some? then recorded.(use := position.value) else recorded);
    }

    method InheritProvenance(sources: seq<Provenance>, own: Option<Provenance>) returns (r: Result<Provenance, Error>)
      ensures r == Inherit(sources, own, ColonyUse(State()))
    {
      if own.Some? && own.value.use == Permitted {
        return Err(ProducerPermitted);
      }
      var all := if own.Some? then sources + [own.value] else sources;
      assert all == sources + Own(own);
      if all == [] {
        var colony := CurrentAttestation(TheColony);
        return Ok(ColonyPosition(colony));
      }
      var use := MostRestrictive(Uses(all));
      var taints := UnionOfTaints(all);
      return Ok(Provenance(use, MostRestrictivePersonal(Personals(all)), taints));
    }

    /** `effective_provenance`. */
    method EffectiveProvenance(id: nat, seen: set<nat>) returns (r: Result<Provenance, Error>)
      ensures r == EffectiveFrom(State(), id, seen)
      decreases |Ids(State()) - seen|
    {
      if id in seen {
        return Err(LineageCycle);
      }
      if id >= |artifacts| {
        return Err(NoSuchArtifact);
      }
      SeenShrinks(State(), seen, id);
      var edges, below := artifacts[id].lineage, seen + {id};
      var sources: seq<Provenance> := [];
      for i := 0 to |edges|
        invariant SourcesFrom(State(), edges[..i], below) == Ok(sources)
      {
        assert edges[..i + 1][..i] == edges[..i];
        var p;
        match edges[i] {
          case FromTool(t) => p := ProvenanceOfToolCall(t);
          case FromArtifact(a) => p := EffectiveProvenance(a, below);
        }
        assert p == EdgeFrom(State(), edges[i], below);
        if p.Err? {
          StopsAtFirst(State(), edges, below, i);
          return Err(p.error);
        }
        sources := sources + [p.value];
      }
      assert edges[..|edges|] == edges;
      r := InheritProvenance(sources, artifacts[id].own);
    }

    method ReadSources(edges: seq<Edge>) returns (r: Result<seq<Provenance>, Error>)
      ensures r == SourcesFrom(State(), edges, {})
    {
      var sources: seq<Provenance> := [];
      for i := 0 to |edges|
        invariant SourcesFrom(State(), edges[..i], {}) == Ok(sources)
      {
        assert edges[..i + 1][..i] == edges[..i];
        var p;
        match edges[i] {
          case FromTool(t) => p := ProvenanceOfToolCall(t);
          case FromArtifact(a) => p := EffectiveProvenance(a, {});
        }
        if p.Err? {
          StopsAtFirst(State(), edges, {}, i);
          return Err(p.error);
        }
        sources := sources + [p.value];
      }
      assert edges[..|edges|] == edges;
      return Ok(sources);
    }

    method FindByContent(content: Content) returns (r: Option<nat>)
      ensures r == Find(artifacts, content)
    {
      for i := 0 to |artifacts|
        invariant Find(artifacts[..i], content) == None
      {
        assert artifacts[..i + 1][..i] == artifacts[..i];
        if artifacts[i].content == content {
          FoundStays(artifacts, content, i);
          return Some(i);
        }
      }
      assert artifacts[..|artifacts|] == artifacts;
      return None;
    }

    /** `_create_locked`. */
    method CreateLocked(d: Draft) returns (r: Result<nat, Error>)
      modifies this`artifacts
      ensures match Create(old(State()), d)
              case Ok((s, id)) => State() == s && r == Ok(id)
              case Err(e) => State() == old(State()) && r == Err(e)
    {
      var existing := FindByContent(d.content);
      if existing.Some? {
        return Ok(existing.value);
      }
      if d.cell !in cells {
        return Err(UnknownCell);
      }
      var edges := DraftEdges(d);
      var sources := ReadSources(edges);
      if sources.Err? {
        return Err(sources.error);
      }
      var position := InheritProvenance(sources.value, d.own);
      if position.Err? {
        return Err(position.error);
      }
      artifacts := artifacts + [Row(d.content, d.cell, edges, d.own, position.value, None)];
      return Ok(|artifacts| - 1);
    }

    method CheckExportable(id: nat, commercial: bool) returns (refusal: Option<Error>)
      ensures refusal == ExportRefusal(State(), id, commercial)
    {
      if id >= |artifacts| {
        return Some(NoSuchArtifact);
      }
      if SimAdversarial in artifacts[id].stored.taints {
        return Some(TaintBlocked);
      }
      if commercial {
        var effective := EffectiveProvenance(id, {});
        if effective.Err? {
          return Some(effective.error);
        }
        if effective.value.use != Permitted {
          return Some(NotPermitted);
        }
      }
      return None;
    }

    /** `export`. */
    method ExportArtifact(id: nat, commercial: bool) returns (failed: Option<Error>)
      modifies this`artifacts
      ensures match Export(old(State()), id, commercial)
              case Ok(s) => State() == s && failed == None
              case Err(e) => State() == old(State()) && failed == Some(e)
    {
      var refusal := CheckExportable(id, commercial);
      if refusal.Some? {
        return refusal;
      }
      var effective := EffectiveProvenance(id, {});
      if effective.Err? {
        return Some(effective.error);
      }
      if artifacts[id].exported.Some? {
        return Some(AlreadyExported);
      }
      artifacts := artifacts[id := artifacts[id].(exported := Some(commercial))];
      return None;
    }
  }

  /** The first source that raises decides what the whole list raises. */
  lemma {:induction false} StopsAtFirst(s: Store, edges: seq<Edge>, seen: set<nat>, i: nat)
    requires i < |edges| && SourcesFrom(s, edges[..i], seen).Ok? && EdgeFrom(s, edges[i], seen).Err?
    ensures SourcesFrom(s, edges, seen) == Err(EdgeFrom(s, edges[i], seen).error)
    decreases |edges|
  {
    var n := |edges| - 1;
    if i == n {
    } else {
      assert edges[..n][..i] == edges[..i];
      StopsAtFirst(s, edges[..n], seen, i);
    }
  }

  lemma {:induction false} FoundStays(rows: seq<Row>, content: Content, i: nat)
    requires i < |rows| && Find(rows[..i], content) == None && rows[i].content == content
    ensures Find(rows, content) == Some(i)
    decreases |rows|
  {
    var n := |rows| - 1;
    if i == n {
    } else {
      assert rows[..n][..i] == rows[..i];
      FoundStays(rows[..n], content, i);
    }
  }
}
