/**
 The `capability_dependencies` table (capmesh/dependency_graph.py) and the graph
 of one tenant that the two algorithms read from it.
 */
module DependencyTable {
  import opened Types
  import opened Text
  import opened DependencyGraph

  datatype Dependency = Dependency(tenant: string, edge: Edge, constraint: string, requiredType: Option<string>)

  predicate SameKey(a: Dependency, b: Dependency)
  {
    a.tenant == b.tenant && a.edge == b.edge
  }

  /** No capability depends on itself, and no edge of a tenant is stored twice. */
  ghost predicate Valid(rows: seq<Dependency>)
  {
    && (forall i :: 0 <= i < |rows| ==> rows[i].edge.cap != rows[i].edge.dep)
    && (forall i, j :: 0 <= i < j < |rows| ==> !SameKey(rows[i], rows[j]))
  }

  /** `SELECT capability_uri, depends_on_uri ... WHERE tenant_id = ?` */
  function EdgesOf(rows: seq<Dependency>, tenant: string): seq<Edge>
  {
    if rows == [] then []
    else
      var last := rows[|rows| - 1];
      EdgesOf(rows[..|rows| - 1], tenant) + (if last.tenant == tenant then [last.edge] else [])
  }

  lemma {:induction false} EdgeStored(rows: seq<Dependency>, tenant: string, e: Edge)
    ensures e in EdgesOf(rows, tenant) <==> exists i :: 0 <= i < |rows| && rows[i].tenant == tenant && rows[i].edge == e
  {
    if rows != [] {
      var front, last := rows[..|rows| - 1], rows[|rows| - 1];
      EdgeStored(front, tenant, e);
      if i :| 0 <= i < |rows| && rows[i].tenant == tenant && rows[i].edge == e {
        assert i < |front| ==> front[i] == rows[i];
      }
      if e in EdgesOf(front, tenant) {
        var i :| 0 <= i < |front| && front[i].tenant == tenant && front[i].edge == e;
        assert rows[i] == front[i];
      }
    }
  }

  lemma {:induction false} EdgesUnique(rows: seq<Dependency>, tenant: string)
    requires Valid(rows)
    ensures NoDuplicates(EdgesOf(rows, tenant))
  {
    if rows != [] {
      var front, last := rows[..|rows| - 1], rows[|rows| - 1];
      EdgesUnique(front, tenant);
      EdgeStored(front, tenant, last.edge);
      assert last.tenant == tenant ==> last.edge !in EdgesOf(front, tenant);
    }
  }

  /** Every cycle of a stored graph runs through at least two capabilities. */
  lemma CyclesAreProper(rows: seq<Dependency>, tenant: string, p: seq<string>)
    requires Valid(rows) && SimpleCycle(EdgesOf(rows, tenant), p)
    ensures |p| >= 3 && p[0] != p[1]
  {
    assert Hop(EdgesOf(rows, tenant), p, 0);
    EdgeStored(rows, tenant, Edge(p[0], p[1]));
  }

  datatype Error = SelfDependency

  class Table {
    var rows: seq<Dependency>

    constructor ()
      ensures rows == []
    {
      rows := [];
    }

    /** `add_dependency`: refuses a self-edge, replaces the constraint of a known edge, appends a new one. */
    method AddDependency(d: Dependency) returns (r: Result<(), Error>)
      requires Valid(rows)
      modifies this
      ensures Valid(rows) && (r.Err? <==> d.edge.cap == d.edge.dep)
      ensures r.Err? ==> rows == old(rows)
      ensures r.Ok? ==> d in rows && forall x :: !SameKey(x, d) ==> (x in rows <==> x in old(rows))
    {
      if d.edge.cap == d.edge.dep {
        return Err(SelfDependency);
      }
      for i := 0 to |rows|
        invariant rows == old(rows) && forall j :: 0 <= j < i ==> !SameKey(rows[j], d)
      {
        if SameKey(rows[i], d) {
          rows := rows[i := d];
          Replaced(old(rows), i, d);
          return Ok(());
        }
      }
      rows := rows + [d];
      r := Ok(());
    }

    method RemoveDependency(tenant: string, e: Edge) returns (removed: bool)
      requires Valid(rows)
      modifies this
      ensures Valid(rows) && (removed <==> e in EdgesOf(old(rows), tenant))
      ensures forall x :: x in rows <==> x in old(rows) && !(x.tenant == tenant && x.edge == e)
    {
      EdgeStored(rows, tenant, e);
      for i := 0 to |rows|
        invariant rows == old(rows) && forall j :: 0 <= j < i ==> !(rows[j].tenant == tenant && rows[j].edge == e)
      {
        if rows[i].tenant == tenant && rows[i].edge == e {
          rows := rows[..i] + rows[i + 1..];
          Dropped(old(rows), i);
          return true;
        }
      }
      removed := false;
    }
  }

  lemma Replaced(rows: seq<Dependency>, i: nat, d: Dependency)
    requires Valid(rows) && i < |rows| && SameKey(rows[i], d)
    ensures Valid(rows[i := d]) && d in rows[i := d] && forall x :: !SameKey(x, d) ==> (x in rows[i := d] <==> x in rows)
  {
    var rows' := rows[i := d];
    assert rows'[i] == d;
    forall x | !SameKey(x, d) ensures x in rows' <==> x in rows {
      if x in rows {
        var j :| 0 <= j < |rows| && rows[j] == x;
        assert rows'[j] == x;
      }
    }
  }

  lemma Dropped(rows: seq<Dependency>, i: nat)
    requires Valid(rows) && i < |rows|
    ensures Valid(rows[..i] + rows[i + 1..])
    ensures forall x :: x in rows[..i] + rows[i + 1..] <==> x in rows && !SameKey(x, rows[i])
  {
    var rest := rows[..i] + rows[i + 1..];
    assert forall j :: 0 <= j < |rest| ==> rest[j] == rows[if j < i then j else j + 1];
    forall x ensures x in rest <==> x in rows && !SameKey(x, rows[i]) {
      if x in rows && !SameKey(x, rows[i]) {
        var j :| 0 <= j < |rows| && rows[j] == x;
        assert rest[if j < i then j else j - 1] == x;
      }
      if x in rest {
        var j :| 0 <= j < |rest| && rest[j] == x;
        assert rows[if j < i then j else j + 1] == x;
      }
    }
  }
}
