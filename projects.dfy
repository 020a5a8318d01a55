/**
 * Rows of the project-request table (`solicitudes_proyectos`). Both consoles split them on
 * one test: `paquete_seleccionado === 'REQUERIMIENTO_ADICIONAL'` marks an additional
 * requirement, anything else a project. The staff console also changes a row's status.
 */
module Projects {
  import opened Wrappers

  const RequirementPackage: string := "REQUERIMIENTO_ADICIONAL"

  datatype ProjectRow = ProjectRow(
    id: string,
    clienteEmail: string,
    clienteNombre: string,
    proyectoNombre: string,
    descripcion: string,
    paqueteSeleccionado: string,
    briefUrl: string,
    estado: string)

  predicate IsRequirement(p: ProjectRow) {
    p.paqueteSeleccionado == RequirementPackage
  }

  /** `rows.filter(p => p.paquete_seleccionado === 'REQUERIMIENTO_ADICIONAL')`. */
  function Requirements(rows: seq<ProjectRow>): (r: seq<ProjectRow>)
    ensures forall p :: p in r <==> p in rows && IsRequirement(p)
  {
    if rows == [] then []
    else (if IsRequirement(rows[0]) then [rows[0]] else []) + Requirements(rows[1..])
  }

  /** `rows.filter(p => p.paquete_seleccionado !== 'REQUERIMIENTO_ADICIONAL')`. */
  function NonRequirements(rows: seq<ProjectRow>): (r: seq<ProjectRow>)
    ensures forall p :: p in r <==> p in rows && !IsRequirement(p)
  {
    if rows == [] then []
    else (if IsRequirement(rows[0]) then [] else [rows[0]]) + NonRequirements(rows[1..])
  }

  /** `prev.map(p => p.id === id ? { ...p, estado: status } : p)`. */
  function WithStatus(rows: seq<ProjectRow>, id: string, status: string): (r: seq<ProjectRow>)
    ensures |r| == |rows|
  {
    if rows == [] then []
    else [if rows[0].id == id then rows[0].(estado := status) else rows[0]] + WithStatus(rows[1..], id, status)
  }

  /** `rows.find(p => p.id === id)`. */
  function FindById(rows: seq<ProjectRow>, id: string): (r: Option<ProjectRow>)
    ensures r.Some? ==> r.value in rows && r.value.id == id
    ensures r.None? ==> forall i :: 0 <= i < |rows| ==> rows[i].id != id
    ensures r.Some? ==> exists k :: 0 <= k < |rows| && rows[k] == r.value && forall j :: 0 <= j < k ==> rows[j].id != id
  {
    if rows == [] then None else if rows[0].id == id then Some(rows[0]) else FindById(rows[1..], id)
  }

  // ------------------------------------------------------------ lemmas

  /** The requirement rows of two stretches of the list are their two results, in list order. */
  lemma {:induction false} RequirementsConcat(a: seq<ProjectRow>, b: seq<ProjectRow>)
    ensures Requirements(a + b) == Requirements(a) + Requirements(b)
  {
    if a == [] {
      assert a + b == b;
    } else {
      assert (a + b)[1..] == a[1..] + b;
      RequirementsConcat(a[1..], b);
    }
  }

  /** The other rows of two stretches of the list are their two results, in list order. */
  lemma {:induction false} NonRequirementsConcat(a: seq<ProjectRow>, b: seq<ProjectRow>)
    ensures NonRequirements(a + b) == NonRequirements(a) + NonRequirements(b)
  {
    if a == [] {
      assert a + b == b;
    } else {
      assert (a + b)[1..] == a[1..] + b;
      NonRequirementsConcat(a[1..], b);
    }
  }

  /** The two filters partition the list: together they hold every row exactly once. */
  lemma {:induction false} FiltersPartition(rows: seq<ProjectRow>)
    ensures multiset(Requirements(rows)) + multiset(NonRequirements(rows)) == multiset(rows)
    ensures |Requirements(rows)| + |NonRequirements(rows)| == |rows|
  {
    if rows != [] {
      FiltersPartition(rows[1..]);
      assert rows == [rows[0]] + rows[1..];
    }
  }

  /** The status change on a row then the rest. */
  lemma WithStatusCons(h: ProjectRow, t: seq<ProjectRow>, id: string, status: string)
    ensures WithStatus([h] + t, id, status)
      == [if h.id == id then h.(estado := status) else h] + WithStatus(t, id, status)
  {
    assert ([h] + t)[1..] == t;
  }

  /** Filtering a row then the rest. */
  lemma FiltersCons(h: ProjectRow, t: seq<ProjectRow>)
    ensures Requirements([h] + t) == (if IsRequirement(h) then [h] else []) + Requirements(t)
    ensures NonRequirements([h] + t) == (if IsRequirement(h) then [] else [h]) + NonRequirements(t)
  {
    assert ([h] + t)[1..] == t;
  }

  /** A status change never moves a row between the two lists. */
  lemma {:induction false} StatusChangeKeepsRequirements(rows: seq<ProjectRow>, id: string, status: string)
    ensures Requirements(WithStatus(rows, id, status)) == WithStatus(Requirements(rows), id, status)
  {
    if rows != [] {
      var r0, rest := rows[0], rows[1..];
      assert rows == [r0] + rest;
      var h := if r0.id == id then r0.(estado := status) else r0;
      var t := WithStatus(rest, id, status);
      WithStatusCons(r0, rest, id, status);
      FiltersCons(h, t);
      FiltersCons(r0, rest);
      StatusChangeKeepsRequirements(rest, id, status);
      if IsRequirement(r0) {
        WithStatusCons(r0, Requirements(rest), id, status);
      } else {
        assert Requirements(rows) == Requirements(rest);
        assert Requirements([h] + t) == Requirements(t);
      }
    }
  }

  lemma {:induction false} StatusChangeKeepsProjects(rows: seq<ProjectRow>, id: string, status: string)
    ensures NonRequirements(WithStatus(rows, id, status)) == WithStatus(NonRequirements(rows), id, status)
  {
    if rows != [] {
      var r0, rest := rows[0], rows[1..];
      assert rows == [r0] + rest;
      var h := if r0.id == id then r0.(estado := status) else r0;
      var t := WithStatus(rest, id, status);
      WithStatusCons(r0, rest, id, status);
      FiltersCons(h, t);
      FiltersCons(r0, rest);
      StatusChangeKeepsProjects(rest, id, status);
      if !IsRequirement(r0) {
        WithStatusCons(r0, NonRequirements(rest), id, status);
      } else {
        assert NonRequirements(rows) == NonRequirements(rest);
        assert NonRequirements([h] + t) == NonRequirements(t);
      }
    }
  }

  /** Each row with that id gets the status; every other row is kept as it was. */
  lemma {:induction false} WithStatusAt(rows: seq<ProjectRow>, id: string, status: string)
    ensures forall i :: 0 <= i < |rows| ==>
      WithStatus(rows, id, status)[i] == (if rows[i].id == id then rows[i].(estado := status) else rows[i])
  {
    if rows != [] {
      WithStatusAt(rows[1..], id, status);
    }
  }

  /** Only `estado`, and only on rows with that id, changes; doing it twice is doing it once. */
  lemma StatusChangeOnlyTouchesMatch(rows: seq<ProjectRow>, id: string, status: string)
    ensures var r := WithStatus(rows, id, status);
      forall i :: 0 <= i < |rows| ==>
        r[i].(estado := rows[i].estado) == rows[i] && (rows[i].id != id ==> r[i] == rows[i])
    ensures WithStatus(WithStatus(rows, id, status), id, status) == WithStatus(rows, id, status)
  {
    var r := WithStatus(rows, id, status);
    WithStatusAt(rows, id, status);
    WithStatusAt(r, id, status);
  }
}
