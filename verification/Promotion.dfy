/**
 `approve_request` (capmesh/promotions.py) from the gate decision on: the URI
 re-mint and the updates of every dependent row.  Gate evaluation is a
 parameter.  `working` is what the connection sees, `committed` what survives.
 */
module Promotion {
  import opened Types

  datatype CapRow = CapRow(id: nat, storeId: Option<string>, namespaceId: Option<string>, capType: string, pluginSlug: string,
                           nameSlug: string, version: string, lifecycle: string, promotedFrom: Option<string>,
                           approvalState: string, signature: string, provenance: string, riskReview: string)

  datatype Request = Request(tenant: string, uri: string, targetNamespace: string, state: string, gates: string)
  datatype Step = Step(request: string, state: string)
  datatype Namespace = Namespace(storeId: string, uriPrefix: string)
  datatype Share = Share(uri: string, subject: string, rights: string)

  datatype Tables = Tables(caps: map<string, CapRow>, sources: map<string, string>, fts: map<nat, string>,
                           requests: map<string, Request>, steps: seq<Step>, shares: seq<Share>, relations: set<Relation>,
                           namespaces: map<string, Namespace>)

  datatype Decision = Approve | Reject | Recall | Demote | Yank

  datatype Error = NotFound | GatesRefused | TargetMissing | UriClash | TupleConflict

  /** What the gate evaluation produced before any promotion write. */
  datatype Gates = Gates(recorded: Option<string>, refused: bool, final: string)

  function StateOf(d: Decision): string
  {
    match d case Approve => "approved" case Reject => "rejected" case Recall => "recalled" case Demote => "demoted" case Yank => "yanked"
  }

  function StripSlash(s: string): string
  {
    if s != "" && s[|s| - 1] == '/' then StripSlash(s[..|s| - 1]) else s
  }

  /** The address a capability gets in a namespace. */
  function Mint(ns: Namespace, c: CapRow): string
  {
    StripSlash(ns.uriPrefix) + "/" + c.capType + "/" + c.pluginSlug + "." + c.nameSlug + "@" + c.version
  }

  function PromotedUri(t: Tables, r: Request): string
  {
    if r.targetNamespace in t.namespaces && r.uri in t.caps then Mint(t.namespaces[r.targetNamespace], t.caps[r.uri]) else r.uri
  }

  function TargetStore(t: Tables, r: Request): Option<string>
  {
    if r.targetNamespace in t.namespaces then Some(t.namespaces[r.targetNamespace].storeId)
    else if r.uri in t.caps then t.caps[r.uri].storeId
    else None
  }

  // ---- the statements ----

  function SetGates(t: Tables, id: string, gates: string): Tables
  {
    if id in t.requests then t.(requests := t.requests[id := t.requests[id].(gates := gates)]) else t
  }

  function MapSteps(steps: seq<Step>, request: string, state: string): (r: seq<Step>)
    ensures |r| == |steps|
    ensures forall i :: 0 <= i < |steps| ==> r[i] == if steps[i] == Step(request, "pending") then Step(request, state) else steps[i]
  {
    seq(|steps|, i requires 0 <= i < |steps| => if steps[i] == Step(request, "pending") then Step(request, state) else steps[i])
  }

  function MarkApproved(c: CapRow, uri: string, store: Option<string>, namespaceId: string): CapRow
  {
    c.(approvalState := "approved",
       lifecycle := if c.lifecycle in {"draft", "published"} then "published" else c.lifecycle,
       storeId := store,
       namespaceId := Some(namespaceId),
       promotedFrom := if c.promotedFrom.Some? then c.promotedFrom else Some(uri),
       signature := if c.signature == "unchecked" then "pending" else c.signature,
       provenance := if c.provenance == "unchecked" then "pending" else c.provenance,
       riskReview := if c.riskReview == "pending" then "approved" else c.riskReview)
  }

  /** `UPDATE capabilities SET uri = new WHERE uri = old` */
  function RenameCap(caps: map<string, CapRow>, old_: string, new_: string): map<string, CapRow>
  {
    if old_ in caps then (caps - {old_})[new_ := caps[old_]] else caps
  }

  function RenameSources(sources: map<string, string>, old_: string, new_: string): map<string, string>
  {
    map p | p in sources :: if sources[p] == old_ then new_ else sources[p]
  }

  /** `UPDATE capability_fts SET uri = new WHERE rowid = (SELECT id FROM capabilities WHERE uri = new)` */
  function RenameFts(fts: map<nat, string>, caps: map<string, CapRow>, new_: string): map<nat, string>
  {
    if new_ in caps && caps[new_].id in fts then fts[caps[new_].id := new_] else fts
  }

  function MoveShares(shares: seq<Share>, old_: string, new_: string): (r: seq<Share>)
    ensures |r| == |shares|
    ensures forall i :: 0 <= i < |shares| ==> r[i] == if shares[i].uri == old_ then shares[i].(uri := new_) else shares[i]
  {
    seq(|shares|, i requires 0 <= i < |shares| => if shares[i].uri == old_ then shares[i].(uri := new_) else shares[i])
  }

  function MoveRelation(r: Relation, tenant: string, old_: string, new_: string): Relation
  {
    if r.tenant == tenant && r.resource == old_ then r.(resource := new_) else r
  }

  function MoveRelations(rs: set<Relation>, tenant: string, old_: string, new_: string): set<Relation>
  {
    set r | r in rs :: MoveRelation(r, tenant, old_, new_)
  }

  /** The UNIQUE constraint would fail: a tuple to be moved already exists at the new address. */
  predicate TupleWouldClash(t: Tables, tenant: string, old_: string, new_: string)
  {
    exists r :: r in t.relations && r.tenant == tenant && r.resource == old_ && r.(resource := new_) in t.relations
  }

  /** The statements before the re-mint. */
  function Approved(t: Tables, id: string, r: Request, gates: string): Tables
  {
    var caps := if r.uri in t.caps then t.caps[r.uri := MarkApproved(t.caps[r.uri], r.uri, TargetStore(t, r), r.targetNamespace)] else t.caps;
    t.(caps := caps, requests := t.requests[id := r.(state := "approved", gates := gates)], steps := MapSteps(t.steps, id, "approved"))
  }

  /** The re-mint statements. */
  function Reminted(t: Tables, tenant: string, id: string, old_: string, new_: string): Tables
    requires id in t.requests
  {
    var caps := RenameCap(t.caps, old_, new_);
    t.(caps := caps,
       sources := RenameSources(t.sources, old_, new_),
       fts := RenameFts(t.fts, caps, new_),
       requests := t.requests[id := t.requests[id].(uri := new_)],
       relations := MoveRelations(t.relations, tenant, old_, new_),
       shares := MoveShares(t.shares, old_, new_))
  }

  /** All statements of an approval after the clash guard. */
  function Promoted(t: Tables, id: string, r: Request, gates: string): Tables
  {
    var t1 := Approved(t, id, r, gates);
    if PromotedUri(t, r) == r.uri then t1 else Reminted(t1, r.tenant, id, r.uri, PromotedUri(t, r))
  }

  // ---- what an approval conserves ----

  ghost predicate DistinctIds(caps: map<string, CapRow>)
  {
    forall u, v :: u in caps && v in caps && caps[u].id == caps[v].id ==> u == v
  }

  /** Referential integrity: sources point at rows, and the index holds each row under its id and current URI. */
  ghost predicate Coherent(t: Tables)
  {
    && DistinctIds(t.caps)
    && (forall p :: p in t.sources ==> t.sources[p] in t.caps)
    && (forall u :: u in t.caps ==> t.caps[u].id in t.fts && t.fts[t.caps[u].id] == u)
    && (forall n :: n in t.fts ==> t.fts[n] in t.caps && t.caps[t.fts[n]].id == n)
  }

  lemma RenameConserves(caps: map<string, CapRow>, old_: string, new_: string)
    requires old_ in caps && new_ !in caps
    ensures RenameCap(caps, old_, new_).Keys == caps.Keys - {old_} + {new_}
    ensures |RenameCap(caps, old_, new_)| == |caps|
  {
    var renamed := RenameCap(caps, old_, new_);
    assert renamed.Keys == caps.Keys - {old_} + {new_};
    assert |renamed| == |renamed.Keys| && |caps| == |caps.Keys|;
  }

  lemma ApprovedCoherent(t: Tables, id: string, r: Request, gates: string)
    requires Coherent(t)
    ensures Coherent(Approved(t, id, r, gates))
    ensures Approved(t, id, r, gates).caps.Keys == t.caps.Keys
  {
    var t1 := Approved(t, id, r, gates);
    assert t1.caps.Keys == t.caps.Keys;
    assert t1.fts == t.fts && t1.sources == t.sources;
  }

  lemma FtsRenamed(t: Tables, old_: string, new_: string)
    requires Coherent(t) && old_ in t.caps && new_ !in t.caps
    ensures var caps := RenameCap(t.caps, old_, new_);
      var fts := RenameFts(t.fts, caps, new_);
      && DistinctIds(caps)
      && (forall u :: u in caps ==> caps[u].id in fts && fts[caps[u].id] == u)
      && (forall n :: n in fts ==> fts[n] in caps && caps[fts[n]].id == n)
      && old_ !in fts.Values
  {
    var caps := RenameCap(t.caps, old_, new_);
    var fts := RenameFts(t.fts, caps, new_);
    assert fts == t.fts[t.caps[old_].id := new_];
    forall n | n in fts ensures fts[n] in caps && caps[fts[n]].id == n && fts[n] != old_ {
      if n != t.caps[old_].id {
        assert fts[n] == t.fts[n];
      }
    }
  }

  lemma RemintedCoherent(t: Tables, tenant: string, id: string, old_: string, new_: string)
    requires Coherent(t) && id in t.requests && old_ in t.caps && new_ !in t.caps
    ensures Coherent(Reminted(t, tenant, id, old_, new_))
  {
    FtsRenamed(t, old_, new_);
    RenameConserves(t.caps, old_, new_);
  }

  /** An approval keeps the number of capabilities and URI uniqueness: one row changes its address, the others stay as they are. */
  lemma ApprovalConserves(t: Tables, id: string, r: Request, gates: string)
    requires id in t.requests && t.requests[id] == r && r.uri in t.caps
    requires PromotedUri(t, r) != r.uri ==> PromotedUri(t, r) !in t.caps
    ensures |Promoted(t, id, r, gates).caps| == |t.caps|
    ensures Promoted(t, id, r, gates).caps.Keys == t.caps.Keys - {r.uri} + {PromotedUri(t, r)}
    ensures Promoted(t, id, r, gates).caps[PromotedUri(t, r)] == MarkApproved(t.caps[r.uri], r.uri, TargetStore(t, r), r.targetNamespace)
    ensures forall u :: u in t.caps && u != r.uri ==> Promoted(t, id, r, gates).caps[u] == t.caps[u]
  {
    var caps := Approved(t, id, r, gates).caps;
    assert caps.Keys == t.caps.Keys;
    SameKeysSameSize(caps, t.caps);
    if PromotedUri(t, r) != r.uri {
      RenameConserves(caps, r.uri, PromotedUri(t, r));
    } else {
      assert t.caps.Keys == t.caps.Keys - {r.uri} + {r.uri};
    }
  }

  lemma SameKeysSameSize(a: map<string, CapRow>, b: map<string, CapRow>)
    requires a.Keys == b.Keys
    ensures |a| == |b|
  {
    assert |a| == |a.Keys| && |b| == |b.Keys|;
  }

  /** An approval keeps the tables coherent. */
  lemma ApprovalCoherent(t: Tables, id: string, r: Request, gates: string)
    requires Coherent(t) && id in t.requests && t.requests[id] == r && r.uri in t.caps
    requires PromotedUri(t, r) != r.uri ==> PromotedUri(t, r) !in t.caps
    ensures Coherent(Promoted(t, id, r, gates))
  {
    ApprovedCoherent(t, id, r, gates);
    if PromotedUri(t, r) != r.uri {
      RemintedCoherent(Approved(t, id, r, gates), r.tenant, id, r.uri, PromotedUri(t, r));
    }
  }

  /** A re-mint leaves no row, source or index entry at the old address. */
  lemma NothingAtOldAddress(t: Tables, id: string, r: Request, gates: string)
    requires Coherent(t) && id in t.requests && t.requests[id] == r && r.uri in t.caps
    requires PromotedUri(t, r) != r.uri && PromotedUri(t, r) !in t.caps
    ensures r.uri !in Promoted(t, id, r, gates).caps
    ensures r.uri !in Promoted(t, id, r, gates).fts.Values
    ensures Promoted(t, id, r, gates).sources == RenameSources(t.sources, r.uri, PromotedUri(t, r))
    ensures r.uri !in Promoted(t, id, r, gates).sources.Values
  {
    var t1, new_ := Approved(t, id, r, gates), PromotedUri(t, r);
    ApprovedCoherent(t, id, r, gates);
    RenameConserves(t1.caps, r.uri, new_);
    FtsRenamed(t1, r.uri, new_);
  }

  /** Shares and same-tenant tuples all move; tuples of other tenants and other rows stay; none is lost. */
  lemma GrantsMove(t: Tables, id: string, r: Request, gates: string)
    requires id in t.requests && t.requests[id] == r && PromotedUri(t, r) != r.uri
    requires !TupleWouldClash(t, r.tenant, r.uri, PromotedUri(t, r))
    ensures var t', new_ := Promoted(t, id, r, gates), PromotedUri(t, r);
      && |t'.shares| == |t.shares| && (forall s :: s in t'.shares ==> s.uri != r.uri)
      && (forall i :: 0 <= i < |t.shares| ==> t'.shares[i] == if t.shares[i].uri == r.uri then t.shares[i].(uri := new_) else t.shares[i])
      && (forall x :: x in t'.relations ==> !(x.tenant == r.tenant && x.resource == r.uri))
      && (forall x :: x in t.relations && !(x.tenant == r.tenant && x.resource == r.uri) ==> x in t'.relations)
      && (forall x :: x in t.relations && x.tenant == r.tenant && x.resource == r.uri ==> x.(resource := new_) in t'.relations)
      && |t'.relations| == |t.relations|
  {
    var new_ := PromotedUri(t, r);
    var t' := Promoted(t, id, r, gates);
    assert t'.relations == MoveRelations(t.relations, r.tenant, r.uri, new_);
    forall x | x in t.relations ensures MoveRelation(x, r.tenant, r.uri, new_) in t'.relations {}
    MovedInjective(t.relations, r.tenant, r.uri, new_);
  }

  lemma {:induction false} MovedInjective(rs: set<Relation>, tenant: string, old_: string, new_: string)
    requires forall r :: r in rs && r.tenant == tenant && r.resource == old_ ==> r.(resource := new_) !in rs
    ensures |MoveRelations(rs, tenant, old_, new_)| == |rs|
  {
    if rs != {} {
      var x :| x in rs;
      var rest := rs - {x};
      MovedInjective(rest, tenant, old_, new_);
      var moved := MoveRelation(x, tenant, old_, new_);
      assert MoveRelations(rs, tenant, old_, new_) == MoveRelations(rest, tenant, old_, new_) + {moved};
      assert moved !in MoveRelations(rest, tenant, old_, new_) by {
        forall y | y in rest ensures MoveRelation(y, tenant, old_, new_) != moved {
          MoveDistinct(rs, x, y, tenant, old_, new_);
        }
      }
    }
  }

  lemma MoveDistinct(rs: set<Relation>, x: Relation, y: Relation, tenant: string, old_: string, new_: string)
    requires forall r :: r in rs && r.tenant == tenant && r.resource == old_ ==> r.(resource := new_) !in rs
    requires x in rs && y in rs && x != y
    ensures MoveRelation(x, tenant, old_, new_) != MoveRelation(y, tenant, old_, new_)
  {
    var movesX, movesY := x.tenant == tenant && x.resource == old_, y.tenant == tenant && y.resource == old_;
    if movesX && !movesY {
      assert x.(resource := new_) !in rs;
    } else if movesY && !movesX {
      assert y.(resource := new_) !in rs;
    }
  }

  /** Only the approved request follows the capability: another request for it keeps the old address. */
  lemma OtherRequestsStay(t: Tables, id: string, r: Request, gates: string, other: string)
    requires id in t.requests && t.requests[id] == r && other in t.requests && other != id
    ensures Promoted(t, id, r, gates).requests[other] == t.requests[other]
  {
  }

  // ---- approve_request ----

  function Dismissed(t: Tables, id: string, r: Request, d: Decision): Tables
  {
    var caps := if r.uri in t.caps then t.caps[r.uri := t.caps[r.uri].(approvalState := StateOf(d))] else t.caps;
    t.(requests := t.requests[id := r.(state := StateOf(d))], steps := MapSteps(t.steps, id, StateOf(d)), caps := caps)
  }

  /** The outcome of a decision: the tables it commits, or the first obstacle. */
  function Decide(t: Tables, tenant: string, id: string, d: Decision, gates: Gates, production: bool): Result<Tables, Error>
  {
    if id !in t.requests || t.requests[id].tenant != tenant then Err(NotFound)
    else
      var r := t.requests[id];
      var new_ := PromotedUri(t, r);
      if d != Approve then Ok(Dismissed(t, id, r, d))
      else if gates.refused then Err(GatesRefused)
      else if production && (r.targetNamespace !in t.namespaces || r.uri !in t.caps) then Err(TargetMissing)
      else if new_ != r.uri && new_ in t.caps then Err(UriClash)
      else if new_ != r.uri && TupleWouldClash(t, tenant, r.uri, new_) then Err(TupleConflict)
      else Ok(Promoted(t, id, r, gates.final))
  }

  /** The early gate write changes no later decision. */
  lemma RecordedGatesOverwritten(t: Tables, id: string, r: Request, recorded: string, final: string)
    requires id in t.requests && t.requests[id] == r
    ensures SetGates(t, id, recorded).(requests := t.requests) == t
    ensures Approved(SetGates(t, id, recorded), id, r, final) == Approved(t, id, r, final)
    ensures PromotedUri(SetGates(t, id, recorded), r) == PromotedUri(t, r)
  {
    assert SetGates(t, id, recorded).requests[id := r.(state := "approved", gates := final)] == t.requests[id := r.(state := "approved", gates := final)];
  }

  class PromotionDesk {
    var working: Tables
    var committed: Tables

    constructor (t: Tables)
      ensures working == committed == t
    {
      working, committed := t, t;
    }

    /** The re-mint: rename the row and move everything that refers to it. */
    method Remint(tenant: string, id: string, oldUri: string, newUri: string) returns (ok: bool)
      requires id in working.requests
      modifies this`working
      ensures ok <==> !TupleWouldClash(old(working), tenant, oldUri, newUri)
      ensures ok ==> working == Reminted(old(working), tenant, id, oldUri, newUri)
    {
      working := working.(caps := RenameCap(working.caps, oldUri, newUri));
      working := working.(sources := RenameSources(working.sources, oldUri, newUri));
      working := working.(fts := RenameFts(working.fts, working.caps, newUri));
      working := working.(requests := working.requests[id := working.requests[id].(uri := newUri)]);
      if TupleWouldClash(working, tenant, oldUri, newUri) {
        return false;
      }
      working := working.(relations := MoveRelations(working.relations, tenant, oldUri, newUri));
      working := working.(shares := MoveShares(working.shares, oldUri, newUri));
      return true;
    }

    /** State, steps and the row's governance columns of an approval. */
    method RecordApproval(id: string, req: Request, gates: string)
      requires id in working.requests
      requires working.requests[id].(gates := gates) == req.(gates := gates)
      modifies this`working
      ensures working == Approved(old(working), id, req, gates)
    {
      var targetStore := TargetStore(working, req);
      working := working.(requests := working.requests[id := working.requests[id].(gates := gates)]);
      working := working.(requests := working.requests[id := working.requests[id].(state := "approved")]);
      working := working.(steps := MapSteps(working.steps, id, "approved"));
      if req.uri in working.caps {
        working := working.(caps := working.caps[req.uri := MarkApproved(working.caps[req.uri], req.uri, targetStore, req.targetNamespace)]);
      }
    }

    /** All writes of an approval; fails only on the UNIQUE constraint of the tuples. */
    method Promote(tenant: string, id: string, req: Request, promotedUri: string, gates: string) returns (ok: bool)
      requires id in working.requests && working.requests[id].(gates := gates) == req.(gates := gates) && req.tenant == tenant
      requires promotedUri == PromotedUri(working, req)
      modifies this`working
      ensures ok <==> promotedUri == req.uri || !TupleWouldClash(old(working), tenant, req.uri, promotedUri)
      ensures ok ==> working == Promoted(old(working), id, req, gates)
    {
      RecordApproval(id, req, gates);
      ok := true;
      if promotedUri != req.uri {
        ok := Remint(tenant, id, req.uri, promotedUri);
      }
    }

    /** Reject, recall, demote or yank. */
    method Dismiss(id: string, req: Request, decision: Decision)
      modifies this`working
      ensures working == Dismissed(old(working), id, req, decision)
    {
      working := working.(requests := working.requests[id := req.(state := StateOf(decision))]);
      working := working.(steps := MapSteps(working.steps, id, StateOf(decision)));
      if req.uri in working.caps {
        working := working.(caps := working.caps[req.uri := working.caps[req.uri].(approvalState := StateOf(decision))]);
      }
    }

    /**
     `approve_request`.  A refusal of any kind commits nothing.  A request that is
     not found, gate refusal, a missing target in production and a URI clash leave
     the working tables alone too, apart from the recorded gate results.
     */
    method ApproveRequest(tenant: string, id: string, decision: Decision, gates: Gates, production: bool)
      returns (r: Result<(), Error>)
      modifies this
      ensures var d := Decide(old(working), tenant, id, decision, gates, production);
        && (r.Err? <==> d.Err?) && (r.Err? ==> r.error == d.error && committed == old(committed))
        && (r.Ok? ==> working == committed == d.value)
      ensures r.Err? && r.error != TupleConflict ==>
        working == old(working) || (gates.recorded.Some? && working == SetGates(old(working), id, gates.recorded.value))
    {
      if id !in working.requests || working.requests[id].tenant != tenant {
        return Err(NotFound);
      }
      var req := working.requests[id];
      if decision != Approve {
        Dismiss(id, req, decision);
        committed := working;
        return Ok(());
      }
      if gates.recorded.Some? {
        RecordedGatesOverwritten(working, id, req, gates.recorded.value, gates.final);
        working := SetGates(working, id, gates.recorded.value);
      }
      if gates.refused {
        return Err(GatesRefused);
      }
      var promotedUri := req.uri;
      if req.targetNamespace !in working.namespaces || req.uri !in working.caps {
        if production {
          return Err(TargetMissing);
        }
      } else {
        promotedUri := Mint(working.namespaces[req.targetNamespace], working.caps[req.uri]);
      }
      if promotedUri != req.uri && promotedUri in working.caps {
        return Err(UriClash);
      }
      var ok := Promote(tenant, id, req, promotedUri, gates.final);
      if !ok {
        return Err(TupleConflict);
      }
      committed := working;
      return Ok(());
    }
  }
}
