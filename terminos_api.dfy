/**
 * The `/api/terminos` handlers: the list query with its `where` object, ordering and
 * limit, the three pending counters, the creation defaults, and the update of one row
 * by `/api/terminos/[id]`. Prisma queries are filters, sorts and counts over the
 * sequence of stored rows; "now" is an explicit instant in milliseconds.
 */
module TerminosApi {
  import opened Wrappers
  import opened Seqs
  import Calendar

  /** A stored término; `fechaVencimiento` is an instant in milliseconds. */
  datatype Termino = Termino(
    id: string,
    caseId: string,
    titulo: string,
    descripcion: Option<string>,
    fechaVencimiento: int,
    tipo: string,
    diasAlerta: int,
    estado: string,
    recordatorio: bool,
    notas: Option<string>)

  /** The query string of a GET, after `parseInt` of `proximos` and `limit`. */
  datatype ListQuery = ListQuery(estado: Option<string>, proximos: Option<int>, limit: Option<nat>)

  /** The Prisma `where` object: an `estado` equality and a `fechaVencimiento <= dueLte` bound. */
  datatype Where = Where(estado: Option<string>, dueLte: Option<int>)

  const DefaultLimit: nat := 50

  /** The `where` object, built by the handler's successive assignments. */
  function BuildWhere(q: ListQuery, now: int): Where {
    var w := Where(None, None);
    var w := if Truthy(q.estado) then w.(estado := q.estado) else w;
    if q.proximos.Some? then
      w.(dueLte := Some(now + q.proximos.value * Calendar.MsPerDay), estado := Some("pendiente"))
    else w
  }

  predicate Matches(w: Where, t: Termino) {
    && (w.estado.Some? ==> t.estado == w.estado.value)
    && (w.dueLte.Some? ==> t.fechaVencimiento <= w.dueLte.value)
  }

  function DueKey(t: Termino): int {
    t.fechaVencimiento
  }

  /** The rows the `where` object selects, in store order. */
  function Selected(rows: seq<Termino>, q: ListQuery, now: int): seq<Termino> {
    var w := BuildWhere(q, now);
    Filter(rows, (t: Termino) => Matches(w, t))
  }

  /** `findMany({ where, orderBy: { fechaVencimiento: 'asc' }, take: limit })`. */
  function ListRows(rows: seq<Termino>, q: ListQuery, now: int): seq<Termino> {
    Take(SortBy(Selected(rows, q, now), DueKey), q.limit.GetOr(DefaultLimit))
  }

  datatype Stats = Stats(totalPendientes: nat, proximosVencer: nat, vencidos: nat)

  predicate IsPendiente(t: Termino) {
    t.estado == "pendiente"
  }

  /** Pending and due no later than three days from now (the instant, not its midnight). */
  predicate ProximoAVencer(t: Termino, now: int) {
    IsPendiente(t) && t.fechaVencimiento <= now + 3 * Calendar.MsPerDay
  }

  /** Pending and due strictly before the instant `now`. */
  predicate Vencido(t: Termino, now: int) {
    IsPendiente(t) && t.fechaVencimiento < now
  }

  /** The three counters, over all rows: the request's filters and limit play no part. */
  function ComputeStats(rows: seq<Termino>, now: int): Stats {
    Stats(
      Count(rows, IsPendiente),
      Count(rows, (t: Termino) => ProximoAVencer(t, now)),
      Count(rows, (t: Termino) => Vencido(t, now)))
  }

  datatype ListResponse = ListResponse(terminos: seq<Termino>, stats: Stats)

  /** `GET /api/terminos`. */
  function Get(rows: seq<Termino>, q: ListQuery, now: int): ListResponse {
    ListResponse(ListRows(rows, q, now), ComputeStats(rows, now))
  }

  /**
   * The listed rows all satisfy the `where` object, come in ascending due order, number
   * at most the limit (50 by default), and are the earliest-due of the selected rows:
   * a selected row that was left out is due no earlier than any listed one. No row is
   * listed more often than the selection holds it.
   */
  lemma ListRowsSpec(rows: seq<Termino>, q: ListQuery, now: int)
    ensures var r := ListRows(rows, q, now);
      && |r| <= q.limit.GetOr(DefaultLimit)
      && |r| == (if q.limit.GetOr(DefaultLimit) < |Selected(rows, q, now)| then q.limit.GetOr(DefaultLimit) else |Selected(rows, q, now)|)
      && (forall i :: 0 <= i < |r| ==> r[i] in rows && Matches(BuildWhere(q, now), r[i]))
      && (forall i, j :: 0 <= i < j < |r| ==> r[i].fechaVencimiento <= r[j].fechaVencimiento)
      && (forall t, i :: t in Selected(rows, q, now) && t !in r && 0 <= i < |r| ==> r[i].fechaVencimiento <= t.fechaVencimiento)
      && multiset(r) <= multiset(Selected(rows, q, now))
  {
    ListedRowsMatch(rows, q, now);
    SortBySorted(Selected(rows, q, now), DueKey);
    ListedRowsEarliest(rows, q, now);
    TakeMultiset(SortBy(Selected(rows, q, now), DueKey), q.limit.GetOr(DefaultLimit));
  }

  lemma ListedRowsMatch(rows: seq<Termino>, q: ListQuery, now: int)
    ensures var r := ListRows(rows, q, now);
      forall i :: 0 <= i < |r| ==> r[i] in rows && Matches(BuildWhere(q, now), r[i])
  {
    var sel := Selected(rows, q, now);
    var sorted := SortBy(sel, DueKey);
    var r := ListRows(rows, q, now);
    SortBySorted(sel, DueKey);
    forall i | 0 <= i < |r| ensures r[i] in rows && Matches(BuildWhere(q, now), r[i]) {
      assert r[i] == sorted[i];
      assert sorted[i] in multiset(sorted);
      assert sorted[i] in sel;
    }
  }

  lemma ListedRowsEarliest(rows: seq<Termino>, q: ListQuery, now: int)
    ensures var r := ListRows(rows, q, now);
      forall t, i :: t in Selected(rows, q, now) && t !in r && 0 <= i < |r| ==> r[i].fechaVencimiento <= t.fechaVencimiento
  {
    var sel := Selected(rows, q, now);
    var sorted := SortBy(sel, DueKey);
    var r := ListRows(rows, q, now);
    SortBySorted(sel, DueKey);
    assert r == sorted[..|r|];
    forall t, i | t in sel && t !in r && 0 <= i < |r| ensures r[i].fechaVencimiento <= t.fechaVencimiento {
      assert t in multiset(sel);
      assert t in multiset(sorted);
      var j :| 0 <= j < |sorted| && sorted[j] == t;
      assert DueKey(sorted[i]) <= DueKey(sorted[j]);
    }
  }

  /**
   * With `proximos=n`, every listed row is pending and due within n days of now, and the
   * `estado` parameter has no effect: the list is the same whatever it says.
   */
  lemma ProximosOverridesEstado(rows: seq<Termino>, q: ListQuery, now: int, other: Option<string>)
    requires q.proximos.Some?
    ensures var r := ListRows(rows, q, now);
      && (forall i :: 0 <= i < |r| ==> r[i].estado == "pendiente" && r[i].fechaVencimiento <= now + q.proximos.value * Calendar.MsPerDay)
      && r == ListRows(rows, q.(estado := other), now)
  {
    ListedRowsMatch(rows, q, now);
    assert BuildWhere(q, now) == BuildWhere(q.(estado := other), now);
  }

  /** Without `proximos`, a non-empty `estado` selects exactly the rows in that state. */
  lemma EstadoFilter(rows: seq<Termino>, q: ListQuery, now: int)
    requires q.proximos.None?
    ensures var s := Selected(rows, q, now);
      && (Truthy(q.estado) ==> forall t :: t in rows ==> (t in s <==> t.estado == q.estado.value))
      && (!Truthy(q.estado) ==> s == rows)
  {
    if !Truthy(q.estado) {
      var w := BuildWhere(q, now);
      FilterAll(rows, (t: Termino) => Matches(w, t));
    }
  }

  /** `vencidos <= proximosVencer <= totalPendientes`: each counter's predicate implies the next one's. */
  lemma StatsChain(rows: seq<Termino>, now: int)
    ensures var s := ComputeStats(rows, now);
      s.vencidos <= s.proximosVencer <= s.totalPendientes
  {
    FilterMonotone(rows, (t: Termino) => Vencido(t, now), (t: Termino) => ProximoAVencer(t, now));
    FilterMonotone(rows, (t: Termino) => ProximoAVencer(t, now), IsPendiente);
  }

  /** The JSON body of a POST, with the due date already parsed into an instant. */
  datatype CreateBody = CreateBody(
    caseId: string,
    titulo: string,
    descripcion: Option<string>,
    fechaVencimiento: int,
    tipo: Option<string>,
    diasAlerta: Option<int>,
    recordatorio: Option<bool>,
    notas: Option<string>)

  /** `s || null`. */
  function OrNull(s: Option<string>): (r: Option<string>)
    ensures r.Some? <==> Truthy(s)
    ensures r.Some? ==> r == s
  {
    if Truthy(s) then s else None
  }

  /** `POST /api/terminos`: the row `prisma.termino.create` stores, `id` being the one the store assigns. */
  function Create(body: CreateBody, id: string): (t: Termino)
    ensures t.estado == "pendiente"
    ensures t.tipo == if Truthy(body.tipo) then body.tipo.value else "procesal"
    ensures t.diasAlerta == if body.diasAlerta.Some? && body.diasAlerta.value != 0 then body.diasAlerta.value else 3
    ensures t.recordatorio <==> body.recordatorio != Some(false)
    ensures t.descripcion.Some? <==> Truthy(body.descripcion)
    ensures t.notas.Some? <==> Truthy(body.notas)
    ensures t.tipo != "" && t.diasAlerta != 0
    ensures t.id == id && t.caseId == body.caseId && t.titulo == body.titulo && t.fechaVencimiento == body.fechaVencimiento
  {
    Termino(
      id,
      body.caseId,
      body.titulo,
      OrNull(body.descripcion),
      body.fechaVencimiento,
      if Truthy(body.tipo) then body.tipo.value else "procesal",
      if body.diasAlerta.Some? && body.diasAlerta.value != 0 then body.diasAlerta.value else 3,
      "pendiente",
      body.recordatorio != Some(false),
      OrNull(body.notas))
  }

  /** `PUT /api/terminos/[id]` with the body `{ estado }`: only that row's `estado` changes. */
  function UpdateEstado(rows: seq<Termino>, id: string, estado: string): (r: seq<Termino>)
    ensures |r| == |rows|
    ensures forall i :: 0 <= i < |rows| ==> r[i] == if rows[i].id == id then rows[i].(estado := estado) else rows[i]
  {
    seq(|rows|, i requires 0 <= i < |rows| => if rows[i].id == id then rows[i].(estado := estado) else rows[i])
  }

  /**
   * `DELETE /api/terminos/[id]`: the rows with that id are removed outright, and every
   * other row stays, as often as before and in the same order.
   */
  function Delete(rows: seq<Termino>, id: string): (r: seq<Termino>)
    ensures forall t :: t in r <==> t in rows && t.id != id
    ensures IsSubsequence(r, rows)
    ensures forall t :: multiset(r)[t] == if t.id != id then multiset(rows)[t] else 0
  {
    var keep := (t: Termino) => t.id != id;
    FilterIsSubsequence(rows, keep);
    FilterMultisetAll(rows, keep);
    Filter(rows, keep)
  }
}
