/**
 Rights and taint over the artifact graph (src/mitosis/artifacts.py, with the attestations of
 src/mitosis/rights.py).

 An artifact's id is its position in insertion order. `EffectiveFrom` is the recursion the
 program runs, cycle guard included, and is defined on every lineage graph: edges may dangle
 or loop. What its answer means is stated over the paths of the graph.
 */
module Artifacts {
  import opened Basics

  datatype Taint =
    | PublicSafe
    | SimStandard
    | SimAdversarial
    | UntrustedExternal
    | HumanAuthored
    | Audited
    | CleanRoomReimplemented

  datatype Use = Prohibited | UnknownUse | Permitted

  datatype Personal = HasPersonal | UnknownPersonal | NoPersonal

  datatype Provenance = Provenance(use: Use, personal: Personal, taints: set<Taint>)

  /** What an artifact that read nothing starts from. */
  const COLONY_AUTHORED := Provenance(UnknownUse, NoPersonal, {})

  datatype Edge = FromTool(tool: nat) | FromArtifact(source: nat)

  datatype Content = Content(kind: string, title: string, text: string)

  /** `stored` is the snapshot taken at creation, `own` what the producer declared, `exported`
      whether a human took it outside and if so commercially. */
  datatype Row = Row(
    content: Content,
    cell: nat,
    lineage: seq<Edge>,
    own: Option<Provenance>,
    stored: Provenance,
    exported: Option<bool>)

  /** A succeeded tool call; `host` is the normalised host of its source. */
  datatype Tool = Tool(host: Option<string>, use: Use, personal: Personal, taint: Option<Taint>)

  datatype Subject = TheColony | Domain(host: string)

  datatype Attestation = Attestation(subject: Subject, use: Use)

  datatype Store = Store(
    cells: set<nat>,
    tools: map<nat, Tool>,
    attestations: seq<Attestation>,
    artifacts: seq<Row>)

  datatype Error =
    | LineageCycle
    | NoSuchArtifact
    | NoSucceededToolCall
    | ProducerPermitted
    | UnknownCell
    | TaintBlocked
    | NotPermitted
    | AlreadyExported

  // ---- the fold ---------------------------------------------------------------------

  function MostRestrictiveUse(values: seq<Use>): Use {
    if Prohibited in values then Prohibited
    else if UnknownUse in values then UnknownUse
    else if Permitted in values then Permitted
    else UnknownUse
  }

  function MostRestrictivePersonal(values: seq<Personal>): Personal {
    if HasPersonal in values then HasPersonal
    else if UnknownPersonal in values then UnknownPersonal
    else if NoPersonal in values then NoPersonal
    else UnknownPersonal
  }

  function Uses(ps: seq<Provenance>): (r: seq<Use>)
    ensures |r| == |ps| && forall i :: 0 <= i < |ps| ==> r[i] == ps[i].use
  {
    if ps == [] then [] else [ps[0].use] + Uses(ps[1..])
  }

  function Personals(ps: seq<Provenance>): (r: seq<Personal>)
    ensures |r| == |ps| && forall i :: 0 <= i < |ps| ==> r[i] == ps[i].personal
  {
    if ps == [] then [] else [ps[0].personal] + Personals(ps[1..])
  }

  function Taints(ps: seq<Provenance>): (r: set<Taint>)
    ensures forall t :: t in r <==> exists i :: 0 <= i < |ps| && t in ps[i].taints
  {
    if ps == [] then {}
    else
      var last := ps[|ps| - 1];
      var rest := ps[..|ps| - 1];
      assert forall i :: 0 <= i < |rest| ==> rest[i] == ps[i];
      Taints(rest) + last.taints
  }

  function Own(own: Option<Provenance>): seq<Provenance> {
    if own.Some? then [own.value] else []
  }

  function ColonyPosition(colony: Option<Use>): Provenance {
    if colony.Some? then COLONY_AUTHORED.(use := colony.value) else COLONY_AUTHORED
  }

  /** Most restrictive wins on rights and personal data; labels are united. */
  function Fold(all: seq<Provenance>): Provenance {
    Provenance(MostRestrictiveUse(Uses(all)), MostRestrictivePersonal(Personals(all)), Taints(all))
  }

  /** `inherit_provenance`. */
  function Inherit(sources: seq<Provenance>, own: Option<Provenance>, colony: Option<Use>): Result<Provenance, Error> {
    if own.Some? && own.value.use == Permitted then Err(ProducerPermitted)
    else
      var all := sources + Own(own);
      if all == [] then Ok(ColonyPosition(colony))
      else Ok(Fold(all))
  }

  // ---- attestations and tool calls -----------------------------------------------------

  /** `rights.current`: the last attestation on a subject, by insertion order. */
  function Current(attestations: seq<Attestation>, subject: Subject): Option<Use> {
    if attestations == [] then None
    else
      var last := attestations[|attestations| - 1];
      if last.subject == subject then Some(last.use)
      else Current(attestations[..|attestations| - 1], subject)
  }

  function ColonyUse(s: Store): Option<Use> {
    Current(s.attestations, TheColony)
  }

  /** `_attested`: an attestation replaces the recorded use, in either direction. */
  function Attested(s: Store, host: Option<string>, recorded: Use): Use {
    if host.None? then recorded
    else
      match Current(s.attestations, Domain(host.value))
      case Some(use) => use
      case None => recorded
  }

  function ToolPosition(s: Store, t: Tool): Provenance {
    Provenance(Attested(s, t.host, t.use), t.personal, if t.taint.Some? then {t.taint.value} else {})
  }

  /** `provenance_of_tool_call`. */
  function OfTool(s: Store, id: nat): Result<Provenance, Error> {
    if id !in s.tools then Err(NoSucceededToolCall) else Ok(ToolPosition(s, s.tools[id]))
  }

  // ---- the recursion --------------------------------------------------------------------

  function Ids(s: Store): set<nat> {
    Indices(|s.artifacts|)
  }

  lemma SeenShrinks(s: Store, seen: set<nat>, id: nat)
    requires id < |s.artifacts| && id !in seen
    ensures |Ids(s) - (seen + {id})| < |Ids(s) - seen|
  {
    assert Ids(s) - seen == (Ids(s) - (seen + {id})) + {id};
  }

  /** `effective_provenance`. */
  function EffectiveFrom(s: Store, id: nat, seen: set<nat>): Result<Provenance, Error>
    decreases |Ids(s) - seen|, 0
  {
    if id in seen then Err(LineageCycle)
    else if id >= |s.artifacts| then Err(NoSuchArtifact)
    else
      SeenShrinks(s, seen, id);
      match SourcesFrom(s, s.artifacts[id].lineage, seen + {id})
      case Err(e) => Err(e)
      case Ok(sources) => Inherit(sources, s.artifacts[id].own, ColonyUse(s))
  }

  function EdgeFrom(s: Store, e: Edge, seen: set<nat>): Result<Provenance, Error>
    decreases |Ids(s) - seen|, 1
  {
    match e
    case FromTool(t) => OfTool(s, t)
    case FromArtifact(a) => EffectiveFrom(s, a, seen)
  }

  function SourcesFrom(s: Store, edges: seq<Edge>, seen: set<nat>): Result<seq<Provenance>, Error>
    decreases |Ids(s) - seen|, 2 + |edges|
  {
    if edges == [] then Ok([])
    else
      match SourcesFrom(s, edges[..|edges| - 1], seen)
      case Err(e) => Err(e)
      case Ok(sources) =>
        match EdgeFrom(s, edges[|edges| - 1], seen)
        case Err(e) => Err(e)
        case Ok(p) => Ok(sources + [p])
  }

  function Effective(s: Store, id: nat): Result<Provenance, Error> {
    EffectiveFrom(s, id, {})
  }

  // ---- creating, exporting, attesting -----------------------------------------------------

  function ToolEdges(ids: seq<nat>): (r: seq<Edge>)
    ensures |r| == |ids| && forall i :: 0 <= i < |ids| ==> r[i] == FromTool(ids[i])
  {
    if ids == [] then [] else [FromTool(ids[0])] + ToolEdges(ids[1..])
  }

  function ArtifactEdges(ids: seq<nat>): (r: seq<Edge>)
    ensures |r| == |ids| && forall i :: 0 <= i < |ids| ==> r[i] == FromArtifact(ids[i])
  {
    if ids == [] then [] else [FromArtifact(ids[0])] + ArtifactEdges(ids[1..])
  }

  /** The artifact with this content, if there is one. Equal hashes stand for equal content. */
  function Find(artifacts: seq<Row>, content: Content): (r: Option<nat>)
    ensures r.Some? ==> r.value < |artifacts| && artifacts[r.value].content == content
    ensures r.None? ==> forall i :: 0 <= i < |artifacts| ==> artifacts[i].content != content
  {
    if artifacts == [] then None
    else
      match Find(artifacts[..|artifacts| - 1], content)
      case Some(i) => Some(i)
      case None =>
        if artifacts[|artifacts| - 1].content == content then Some(|artifacts| - 1) else None
  }

  /** What a caller of `create` supplies. */
  datatype Draft = Draft(content: Content, cell: nat, tools: seq<nat>, sources: seq<nat>, own: Option<Provenance>)

  function DraftEdges(d: Draft): seq<Edge> {
    ToolEdges(d.tools) + ArtifactEdges(d.sources)
  }

  /** The position a new artifact would be born with. */
  function DraftPosition(s: Store, d: Draft): Result<Provenance, Error> {
    match SourcesFrom(s, DraftEdges(d), {})
    case Err(e) => Err(e)
    case Ok(sources) => Inherit(sources, d.own, ColonyUse(s))
  }

  /** `_create_locked`: the id of the artifact with this content, old or new. Equal lineage
      rows are all kept: the table's UNIQUE never fires, one of its columns being NULL. */
  function Create(s: Store, d: Draft): Result<(Store, nat), Error> {
    var existing := Find(s.artifacts, d.content);
    if existing.Some? then Ok((s, existing.value))
    else if d.cell !in s.cells then Err(UnknownCell)
    else
      match DraftPosition(s, d)
      case Err(e) => Err(e)
      case Ok(p) =>
        var row := Row(d.content, d.cell, DraftEdges(d), d.own, p, None);
        Ok((s.(artifacts := s.artifacts + [row]), |s.artifacts|))
  }

  /** `check_exportable`: `None` means the artifact may leave. */
  function ExportRefusal(s: Store, id: nat, commercial: bool): Option<Error> {
    if id >= |s.artifacts| then Some(NoSuchArtifact)
    else if SimAdversarial in s.artifacts[id].stored.taints then Some(TaintBlocked)
    else if !commercial then None
    else
      match Effective(s, id)
      case Err(e) => Some(e)
      case Ok(p) => if p.use != Permitted then Some(NotPermitted) else None
  }

  /** `export`. */
  function Export(s: Store, id: nat, commercial: bool): Result<Store, Error> {
    match ExportRefusal(s, id, commercial)
    case Some(e) => Err(e)
    case None =>
      match Effective(s, id)
      case Err(e) => Err(e)
      case Ok(_) =>
        if s.artifacts[id].exported.Some? then Err(AlreadyExported)
        else Ok(s.(artifacts := s.artifacts[id := s.artifacts[id].(exported := Some(commercial))]))
  }

  datatype Op =
    | NewCell(cell: nat)
    | ToolSucceeded(id: nat, tool: Tool)
    | Attest(attestation: Attestation)
    | DoCreate(draft: Draft)
    | DoExport(artifact: nat, commercial: bool)

  function Next(s: Store, op: Op): Store {
    match op
    case NewCell(cell) => s.(cells := s.cells + {cell})
    case ToolSucceeded(id, tool) => if id in s.tools then s else s.(tools := s.tools[id := tool])
    case Attest(a) => s.(attestations := s.attestations + [a])
    case DoCreate(d) => var r := Create(s, d); if r.Ok? then r.value.0 else s
    case DoExport(id, commercial) => var r := Export(s, id, commercial); if r.Ok? then r.value else s
  }

  function Run(s: Store, ops: seq<Op>): Store
    decreases |ops|
  {
    if ops == [] then s else Run(Next(s, ops[0]), ops[1..])
  }

  const EMPTY := Store({}, map[], [], [])
}
