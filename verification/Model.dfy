/**
 Capabilities as discovery produces them and as the `capabilities` table stores
 them (capmesh/models.py, the schema and the upsert in capmesh/index.py).
 Columns that the schema declares NOT NULL are plain text; nullable ones are
 options.  Paths are the normalized paths that discovery records.
 */
module Model {
  import opened Types

  /** One record of `metadata.sourceProvenance`. An absent key is the empty string. */
  datatype Source = Source(path: string, kind: string, system: string, hash: string)

  datatype Authority = Authority(path: string, system: string, rank: int, tiebreak: bool)

  /**
   The metadata keys the merges write; lists the source builds with `sorted` are
   kept as sets, and `conflicts` stands for the stale-mirror flag written with
   it.  `rest` is everything else.
   */
  datatype Metadata = Metadata(sourcePaths: Option<set<string>>, sourceProvenance: Option<set<Source>>, conflicts: Option<set<Source>>,
                               ambiguousSources: Option<set<string>>, keyCollision: bool, uriCollision: bool,
                               authority: Option<Authority>, rest: string)

  /** Columns the upsert assigns unconditionally and nothing here interprets. */
  datatype Details = Details(storeId: Option<string>, namespaceId: Option<string>, capType: string, name: string, version: string,
                             title: string, description: string, packagePath: string, entrypoint: string, visibility: string,
                             discoveryMode: string, owner: string, plugin: Option<string>, category: Option<string>,
                             keywords: seq<string>, requiredScopes: seq<string>, allowGroups: seq<string>, allowUsers: seq<string>,
                             riskTier: string, mutating: bool, createdBy: Option<string>, sourceCommit: Option<string>,
                             license: Option<string>)

  /** Columns whose new value depends on the old row. */
  datatype Governance = Governance(lifecycle: string, approvalState: string, shareState: string, signature: string,
                                   provenance: string, riskReview: string)

  datatype Capability = Capability(uri: string, key: string, tenant: string, hash: string, sourcePath: string, sourceKind: string,
                                   sourceSystem: string, details: Details, metadata: Metadata, gov: Governance,
                                   submittedBy: Option<string>, promotedFrom: Option<string>)

  predicate IsSystemOrDraft(c: Capability)
  {
    c.sourceKind in {"system_capability", "capmesh_draft"}
  }

  // ---- ON CONFLICT(uri) DO UPDATE ----

  /** One governance column: kept while the content is unchanged, demoted from `strong` to `weak` when it changed. */
  function Carry(sameContent: bool, old_: string, new_: string, strong: string, weak: string): string
  {
    if sameContent then old_ else if old_ == strong then weak else new_
  }

  /** The governance columns after an upsert over an existing row. */
  function CarryGovernance(sameContent: bool, old_: Governance, new_: Governance): Governance
  {
    Governance(
      if sameContent && old_.approvalState == "approved" then old_.lifecycle else new_.lifecycle,
      Carry(sameContent, old_.approvalState, new_.approvalState, "approved", "pending"),
      Carry(sameContent, old_.shareState, new_.shareState, "shared", "not_shared"),
      Carry(sameContent, old_.signature, new_.signature, "verified", "pending"),
      Carry(sameContent, old_.provenance, new_.provenance, "verified", "pending"),
      Carry(sameContent, old_.riskReview, new_.riskReview, "approved", "pending"))
  }

  /** The SET clause, applied unconditionally. */
  function SetColumns(old_: Capability, new_: Capability): Capability
  {
    new_.(uri := old_.uri,
          gov := CarryGovernance(old_.hash == new_.hash, old_.gov, new_.gov),
          submittedBy := if old_.submittedBy.Some? then old_.submittedBy else new_.submittedBy,
          promotedFrom := if old_.promotedFrom.Some? then old_.promotedFrom else new_.promotedFrom)
  }

  predicate DetailsDiffer(o: Details, n: Details)
  {
    || o.storeId != n.storeId
    || o.namespaceId != n.namespaceId
    || o.capType != n.capType
    || o.name != n.name
    || o.version != n.version
    || o.title != n.title
    || o.description != n.description
    || o.packagePath != n.packagePath
    || o.entrypoint != n.entrypoint
    || o.visibility != n.visibility
    || o.discoveryMode != n.discoveryMode
    || o.owner != n.owner
    || o.plugin != n.plugin
    || o.category != n.category
    || o.keywords != n.keywords
    || o.requiredScopes != n.requiredScopes
    || o.allowGroups != n.allowGroups
    || o.allowUsers != n.allowUsers
    || o.riskTier != n.riskTier
    || o.mutating != n.mutating
    || o.createdBy != n.createdBy
    || o.sourceCommit != n.sourceCommit
    || o.license != n.license
  }

  /** The WHERE clause of the conflict branch (`IS NOT` on every listed column). */
  predicate WouldChange(o: Capability, n: Capability)
  {
    || o.hash != n.hash
    || o.key != n.key
    || o.tenant != n.tenant
    || o.sourcePath != n.sourcePath
    || o.sourceKind != n.sourceKind
    || o.sourceSystem != n.sourceSystem
    || DetailsDiffer(o.details, n.details)
    || (!(o.hash == n.hash && o.gov.approvalState == "approved") && o.gov.lifecycle != n.gov.lifecycle)
    || o.metadata != n.metadata
    || (o.submittedBy.None? && n.submittedBy.Some?)
    || (o.promotedFrom.None? && n.promotedFrom.Some?)
  }

  lemma DetailsDifferIff(o: Details, n: Details)
    ensures DetailsDiffer(o, n) <==> o != n
  {
  }

  /** No-op suppression is exact: the WHERE clause holds exactly when the SET clause would change a column. */
  lemma NoOpSuppressionExact(o: Capability, n: Capability)
    requires o.uri == n.uri
    ensures WouldChange(o, n) <==> SetColumns(o, n) != o
  {
    DetailsDifferIff(o.details, n.details);
    if !WouldChange(o, n) {
      assert SetColumns(o, n).gov == o.gov;
    }
  }

  // ---- lifecycle clamp ----

  const TRANSITIONS: map<string, set<string>> := map[
    "draft" := {"active", "deprecated", "retired", "published"},
    "active" := {"deprecated", "retired", "draft"},
    "published" := {"deprecated", "retired", "active"},
    "deprecated" := {"active", "retired"},
    "retired" := {"active", "deprecated"},
    "disabled" := {"active", "deleted"},
    "deleted" := {},
    "recalled" := {"active", "draft"},
    "yanked" := {"active"}]

  predicate ValidTransition(from: string, to: string)
  {
    from == to || (from in TRANSITIONS && to in TRANSITIONS[from])
  }

  /** The incoming lifecycle, clamped to the stored one when unchanged content asks for an invalid transition. */
  function Clamp(o: Capability, n: Capability): Capability
  {
    if o.gov.lifecycle != n.gov.lifecycle && o.hash == n.hash && !ValidTransition(o.gov.lifecycle, n.gov.lifecycle)
    then n.(gov := n.gov.(lifecycle := o.gov.lifecycle)) else n
  }

  /** The row `o` after an upsert of `c`: clamped, and written where the WHERE clause lets the SET clause through. */
  function Refreshed(o: Capability, c: Capability): Capability
  {
    var n := Clamp(o, c);
    if WouldChange(o, n) then SetColumns(o, n) else o
  }

  // ---- the FTS row ----

  function Join(sep: string, parts: seq<string>): string
  {
    if parts == [] then "" else if |parts| == 1 then parts[0] else parts[0] + sep + Join(sep, parts[1..])
  }

  function NonEmpty(parts: seq<string>): seq<string>
  {
    if parts == [] then [] else (if parts[0] != "" then [parts[0]] else []) + NonEmpty(parts[1..])
  }

  /** `index_text` */
  function IndexText(d: Details): string
  {
    Join("\n", NonEmpty([d.name, d.title, d.description, d.capType, Or(d.plugin, ""), Or(d.category, ""), Join(" ", d.keywords)]))
  }

  datatype Fts = Fts(uri: string, name: string, title: string, description: string, keywords: string, plugin: string,
                     category: string, content: string)

  function FtsOf(c: Capability): Fts
  {
    var d := c.details;
    Fts(c.uri, d.name, d.title, d.description, Join(" ", d.keywords), Or(d.plugin, ""), Or(d.category, ""), IndexText(d))
  }

  // ---- the source rows a capability stands for ----

  /** A provenance record with the capability's own values in place of missing ones. */
  function Completed(c: Capability, s: Source): Source
  {
    Source(s.path, if s.kind == "" then c.sourceKind else s.kind, if s.system == "" then c.sourceSystem else s.system,
           if s.hash == "" then c.hash else s.hash)
  }

  function ListedProvenance(c: Capability): set<Source>
  {
    match c.metadata.sourceProvenance
    case None => {}
    case Some(items) => set s | s in items && s.path != "" :: Completed(c, s)
  }

  function ListedPaths(c: Capability): set<string>
  {
    match c.metadata.sourcePaths
    case None => {c.sourcePath}
    case Some(paths) => if paths == {} then {c.sourcePath} else paths
  }

  predicate Conflicting(records: set<Source>)
  {
    exists a, b :: a in records && b in records && a.path == b.path && a != b
  }

  function Own(c: Capability, path: string): Source
  {
    Source(path, c.sourceKind, c.sourceSystem, c.hash)
  }

  /** `_capability_source_rows` without the URI column: listed provenance, then own values for paths it does not cover. */
  function SourceRecords(c: Capability): set<Source>
  {
    var listed := ListedProvenance(c);
    var paths := ListedPaths(c) + {c.sourcePath};
    listed + set p | p in paths && p !in (set s | s in listed :: s.path) :: Own(c, p)
  }

  /** The capability's own values stand in for what a listed record leaves out. */
  ghost predicate FilledIn(c: Capability, s: Source, r: Source)
  {
    && r.path == s.path
    && (s.kind != "" ==> r.kind == s.kind) && (s.kind == "" ==> r.kind == c.sourceKind)
    && (s.system != "" ==> r.system == s.system) && (s.system == "" ==> r.system == c.sourceSystem)
    && (s.hash != "" ==> r.hash == s.hash) && (s.hash == "" ==> r.hash == c.hash)
  }

  /** The capability lists a record for `path`. */
  ghost predicate ListsRecord(c: Capability, path: string)
  {
    path != "" && c.metadata.sourceProvenance.Some? && exists s :: s in c.metadata.sourceProvenance.value && s.path == path
  }

  /** A path the capability claims: its own, and those it lists. */
  ghost predicate Claims(c: Capability, path: string)
  {
    path == c.sourcePath || (c.metadata.sourcePaths.Some? && path in c.metadata.sourcePaths.value)
  }

  lemma ListedExact(c: Capability, r: Source)
    ensures r.path in (set s | s in ListedProvenance(c) :: s.path) <==> ListsRecord(c, r.path)
    ensures r in ListedProvenance(c) <==>
      c.metadata.sourceProvenance.Some? && exists s :: s in c.metadata.sourceProvenance.value && s.path != "" && FilledIn(c, s, r)
  {
    if ListsRecord(c, r.path) {
      var s :| s in c.metadata.sourceProvenance.value && s.path == r.path;
      assert Completed(c, s) in ListedProvenance(c);
    }
    if c.metadata.sourceProvenance.Some? && exists s :: s in c.metadata.sourceProvenance.value && s.path != "" && FilledIn(c, s, r) {
      var s :| s in c.metadata.sourceProvenance.value && s.path != "" && FilledIn(c, s, r);
      assert Completed(c, s) == r;
    }
  }

  /**
   The records of a capability: each listed one, filled in from the capability,
   and its own values for every path it claims without a record; no others.
   */
  lemma SourceRecordsExact(c: Capability, r: Source)
    ensures r in SourceRecords(c) <==>
      if ListsRecord(c, r.path) then exists s :: s in c.metadata.sourceProvenance.value && s.path != "" && FilledIn(c, s, r)
      else Claims(c, r.path) && r.kind == c.sourceKind && r.system == c.sourceSystem && r.hash == c.hash
  {
    ListedExact(c, r);
  }
}
