/**
 * The "Términos" page: days remaining to a deadline, the urgency colour, the four views
 * and their ordering, the label and its colour, the VENCIDO badge, the creation form's
 * validation, and the component state replaced by `loadTerminos`, `marcarCumplido` and
 * `deleteTermino`. "Now" is an explicit instant in milliseconds of local wall-clock time.
 */
module TerminosPage {
  import opened Wrappers
  import opened Seqs
  import opened Text
  import opened Calendar
  import opened TerminosApi

  /**
   * `diasRestantes`: both instants are moved back to their midnight and the difference
   * is rounded up to whole days, which is exactly the difference of their day numbers.
   */
  function DiasRestantes(due: int, now: int): (d: int)
    ensures d == DayOf(due) - DayOf(now)
  {
    var diff := Midnight(due) - Midnight(now);
    assert Midnight(due) == DayOf(due) * MsPerDay;
    assert Midnight(now) == DayOf(now) * MsPerDay;
    assert diff == (DayOf(due) - DayOf(now)) * MsPerDay;
    CeilDaysUnique(diff, DayOf(due) - DayOf(now));
    CeilDays(diff)
  }

  /**
   * On today's calendar day the count is 0 at every hour, on the next calendar day it is 1,
   * and on any earlier calendar day it is negative.
   */
  lemma DiasRestantesByCalendarDay(now: int, h: int)
    requires 0 <= h < MsPerDay
    ensures DiasRestantes(Midnight(now) + h, now) == 0
    ensures DiasRestantes(Midnight(now) + MsPerDay + h, now) == 1
    ensures forall due :: due < Midnight(now) ==> DiasRestantes(due, now) < 0
  {
    assert Midnight(now) == DayOf(now) * MsPerDay;
    assert DayOf(Midnight(now) + h) == DayOf(now);
    assert DayOf(Midnight(now) + MsPerDay + h) == DayOf(now) + 1;
  }

  /** The four card styles `getUrgenciaColor` returns. */
  datatype Urgencia = Verde | Rojo | Ambar | Blanco

  /** `getUrgenciaColor(dias, estado)`. */
  function UrgenciaColor(dias: int, estado: string): (c: Urgencia)
    ensures c == Verde <==> estado == "cumplido"
    ensures c == Rojo <==> estado != "cumplido" && dias <= 1
    ensures c == Ambar <==> estado != "cumplido" && 2 <= dias <= 3
    ensures c == Blanco <==> estado != "cumplido" && dias >= 4
  {
    if estado == "cumplido" then Verde
    else if dias < 0 then Rojo
    else if dias <= 1 then Rojo
    else if dias <= 3 then Ambar
    else Blanco
  }

  /** The urgency tiers of a deadline, first match wins: an independent classification. */
  datatype Tier = Completed | Overdue | Critical | Upcoming | Normal

  function Classify(dias: int, cumplido: bool): Tier {
    if cumplido then Completed
    else if dias < 0 then Overdue
    else if dias <= 1 then Critical
    else if dias <= 3 then Upcoming
    else Normal
  }

  /** The label each tier is shown with. */
  function TierLabel(tier: Tier, dias: int): string {
    match tier
    case Completed => "✓ Cumplido"
    case Overdue => "Venció hace " + IntToString(-dias) + " día(s)"
    case Upcoming => "Vence en " + IntToString(dias) + " días"
    case Normal => "Vence en " + IntToString(dias) + " días"
    case Critical =>
      if dias == 0 then "¡Vence HOY!"
      else "Vence MAÑANA"
  }

  /** The card colour each tier is shown with. */
  function TierColor(tier: Tier): Urgencia {
    match tier
    case Completed => Verde
    case Overdue => Rojo
    case Critical => Rojo
    case Upcoming => Ambar
    case Normal => Blanco
  }

  /**
   * The `vencido` flag of a card: past its calendar day and still pending. The VENCIDO
   * badge is drawn exactly for these cards.
   */
  predicate EstaVencido(t: Termino, now: int) {
    DiasRestantes(t.fechaVencimiento, now) < 0 && t.estado == "pendiente"
  }

  /** The label text of a card. */
  function Etiqueta(t: Termino, now: int): string {
    var dias := DiasRestantes(t.fechaVencimiento, now);
    if t.estado == "cumplido" then "✓ Cumplido"
    else if EstaVencido(t, now) then "Venció hace " + IntToString(if dias < 0 then -dias else dias) + " día(s)"
    else if dias == 0 then "¡Vence HOY!"
    else if dias == 1 then "Vence MAÑANA"
    else "Vence en " + IntToString(dias) + " días"
  }

  /** The three text colours of the label. */
  datatype Tono = TextoRojo | TextoAmbar | TextoGris

  /** The label's colour, which looks at `vencido` and `dias` but not at `cumplido`. */
  function EtiquetaTono(t: Termino, now: int): (c: Tono)
    ensures c == TextoRojo <==> EstaVencido(t, now) || DiasRestantes(t.fechaVencimiento, now) <= 1
    ensures c == TextoAmbar <==> 2 <= DiasRestantes(t.fechaVencimiento, now) <= 3
  {
    var dias := DiasRestantes(t.fechaVencimiento, now);
    if EstaVencido(t, now) then TextoRojo
    else if dias <= 1 then TextoRojo
    else if dias <= 3 then TextoAmbar
    else TextoGris
  }

  /**
   * For a pending or fulfilled deadline the card's colour and label are those of its
   * tier: the page's chain of conditions agrees with the tier classification.
   */
  lemma CardFollowsTier(t: Termino, now: int)
    requires t.estado == "pendiente" || t.estado == "cumplido"
    ensures var dias := DiasRestantes(t.fechaVencimiento, now);
      var tier := Classify(dias, t.estado == "cumplido");
      && UrgenciaColor(dias, t.estado) == TierColor(tier)
      && Etiqueta(t, now) == TierLabel(tier, dias)
      && (EstaVencido(t, now) <==> tier == Overdue)
  {
  }

  /**
   * Outside the two known states the chain still ends in a label: a past deadline with
   * another `estado` is never `vencido` and reads "Vence en -n días".
   */
  lemma OtherEstadoLabel(t: Termino, now: int)
    requires t.estado != "pendiente" && t.estado != "cumplido"
    requires DiasRestantes(t.fechaVencimiento, now) < 0
    ensures !EstaVencido(t, now)
    ensures Etiqueta(t, now) == "Vence en -" + NatToString(-DiasRestantes(t.fechaVencimiento, now)) + " días"
  {
    var dias := DiasRestantes(t.fechaVencimiento, now);
    assert IntToString(dias) == "-" + NatToString(-dias);
    assert "Vence en " + ("-" + NatToString(-dias)) + " días" == "Vence en -" + NatToString(-dias) + " días";
  }

  /** The page's `filter` state. */
  datatype Vista = Todos | Pendientes | Cumplidos | Vencidos

  /** The `filtered` predicate. */
  predicate EnVista(t: Termino, v: Vista, now: int) {
    match v
    case Todos => true
    case Vencidos => EstaVencido(t, now)
    case Cumplidos => t.estado == "cumplido"
    case Pendientes => t.estado == "pendiente" && !EstaVencido(t, now)
  }

  function Filtered(ts: seq<Termino>, v: Vista, now: int): seq<Termino> {
    Filter(ts, (t: Termino) => EnVista(t, v, now))
  }

  function DiasKey(now: int): Termino -> int {
    (t: Termino) => DiasRestantes(t.fechaVencimiento, now)
  }

  /** `sorted`: a stably sorted copy of `filtered`, by days remaining. */
  function SortedView(ts: seq<Termino>, v: Vista, now: int): seq<Termino> {
    SortBy(Filtered(ts, v, now), DiasKey(now))
  }

  /**
   * A deadline that is pending or fulfilled lies in exactly one of the pending, overdue
   * and fulfilled views; every deadline lies in the full view; a fulfilled one is never
   * overdue.
   */
  lemma ViewsPartition(t: Termino, now: int)
    requires t.estado == "pendiente" || t.estado == "cumplido"
    ensures EnVista(t, Todos, now)
    ensures (if EnVista(t, Pendientes, now) then 1 else 0) + (if EnVista(t, Vencidos, now) then 1 else 0)
      + (if EnVista(t, Cumplidos, now) then 1 else 0) == 1
    ensures t.estado == "cumplido" ==> !EnVista(t, Vencidos, now)
  {
  }

  /** Over a list in the two known states, the three views' sizes add up to the list's. */
  lemma {:induction false} ViewSizes(ts: seq<Termino>, now: int)
    requires forall i :: 0 <= i < |ts| ==> ts[i].estado == "pendiente" || ts[i].estado == "cumplido"
    ensures |Filtered(ts, Pendientes, now)| + |Filtered(ts, Vencidos, now)| + |Filtered(ts, Cumplidos, now)| == |ts|
    ensures Filtered(ts, Todos, now) == ts
  {
    FilterAll(ts, (t: Termino) => EnVista(t, Todos, now));
    if ts != [] {
      ViewSizes(ts[1..], now);
      ViewsPartition(ts[0], now);
    }
  }

  /**
   * The sorted view holds the filtered deadlines, each as often as there, in
   * non-decreasing days remaining; deadlines with equal days keep their list order.
   */
  lemma SortedViewSpec(ts: seq<Termino>, v: Vista, now: int, k: int)
    ensures multiset(SortedView(ts, v, now)) == multiset(Filtered(ts, v, now))
    ensures SortedBy(SortedView(ts, v, now), DiasKey(now))
    ensures WithKey(SortedView(ts, v, now), DiasKey(now), k) == WithKey(Filtered(ts, v, now), DiasKey(now), k)
  {
    SortBySorted(Filtered(ts, v, now), DiasKey(now));
    SortByStable(Filtered(ts, v, now), DiasKey(now), k);
  }

  /**
   * A deadline due earlier today, before the instant `now`, is already counted among
   * the server's `vencidos`, while the page shows "¡Vence HOY!" and keeps it out of its
   * overdue view.
   */
  lemma EarlierTodayDisagreement(t: Termino, now: int)
    requires t.estado == "pendiente"
    requires Midnight(now) <= t.fechaVencimiento < now
    ensures TerminosApi.Vencido(t, now)
    ensures !EnVista(t, Vencidos, now) && EnVista(t, Pendientes, now)
    ensures Etiqueta(t, now) == "¡Vence HOY!"
  {
    DiasRestantesByCalendarDay(now, t.fechaVencimiento - Midnight(now));
  }

  /** `NewTerminoModal`'s form. */
  datatype TerminoForm = TerminoForm(
    titulo: string,
    descripcion: string,
    tipo: string,
    caseId: string,
    fechaVencimiento: string,
    diasAlerta: int,
    notas: string)

  const InitialForm := TerminoForm("", "", "procesal", "", "", 3, "")

  datatype Submission = Alert(message: string) | PostForm(body: TerminoForm)

  /**
   * `handleSubmit`: the first empty field among titulo, caseId and fechaVencimiento is
   * reported and nothing is sent; otherwise the form is posted as it is.
   */
  function Submit(f: TerminoForm): (r: Submission)
    ensures r.PostForm? <==> f.titulo != "" && f.caseId != "" && f.fechaVencimiento != ""
    ensures r.PostForm? ==> r.body == f
    ensures f.titulo == "" ==> r == Alert("Título requerido")
    ensures f.titulo != "" && f.caseId == "" ==> r == Alert("Debe asociar a un expediente")
    ensures f.titulo != "" && f.caseId != "" && f.fechaVencimiento == "" ==> r == Alert("Fecha de vencimiento requerida")
  {
    if f.titulo == "" then Alert("Título requerido")
    else if f.caseId == "" then Alert("Debe asociar a un expediente")
    else if f.fechaVencimiento == "" then Alert("Fecha de vencimiento requerida")
    else PostForm(f)
  }

  /** The POST body the server reads from a posted form, its date already parsed into `due`. */
  function FormBody(f: TerminoForm, due: int): CreateBody {
    CreateBody(f.caseId, f.titulo, Some(f.descripcion), due, Some(f.tipo), Some(f.diasAlerta), None, Some(f.notas))
  }

  /**
   * A form whose defaults were left alone creates a pending, procedural deadline with a
   * three-day alert and the reminder on; blank description and notes are stored as null.
   */
  lemma DefaultFormCreates(f: TerminoForm, due: int, id: string)
    requires f.tipo == InitialForm.tipo && f.diasAlerta == InitialForm.diasAlerta
    requires Submit(f).PostForm?
    ensures var t := Create(FormBody(Submit(f).body, due), id);
      && t.estado == "pendiente" && t.tipo == "procesal" && t.diasAlerta == 3 && t.recordatorio
      && t.caseId == f.caseId && t.titulo == f.titulo && t.fechaVencimiento == due
      && (f.descripcion == "" ==> t.descripcion == None)
      && (f.notas == "" ==> t.notas == None)
  {
  }

  /**
   * Marking a deadline fulfilled moves only that deadline, and only forward: a fulfilled
   * row stays fulfilled, marking twice is marking once, and the pending total cannot grow.
   */
  lemma MarcarCumplidoOneWay(rows: seq<Termino>, id: string, now: int)
    ensures var r := UpdateEstado(rows, id, "cumplido");
      && (forall i :: 0 <= i < |rows| && rows[i].estado == "cumplido" ==> r[i].estado == "cumplido")
      && (forall i :: 0 <= i < |rows| && rows[i].id != id ==> r[i] == rows[i])
      && UpdateEstado(r, id, "cumplido") == r
      && ComputeStats(r, now).totalPendientes <= ComputeStats(rows, now).totalPendientes
  {
    var r := UpdateEstado(rows, id, "cumplido");
    CountPointwise(rows, r, IsPendiente);
  }

  /** The query `loadTerminos` sends: `?limit=100`. */
  const PageQuery := ListQuery(None, None, Some(100))

  /** The component state of the page. */
  class TerminosView {
    var terminos: seq<Termino>
    var stats: Stats
    var loading: bool
    var filter: Vista

    constructor ()
      ensures terminos == [] && stats == Stats(0, 0, 0) && loading && filter == Pendientes
    {
      terminos := [];
      stats := Stats(0, 0, 0);
      loading := true;
      filter := Pendientes;
    }

    /** The cards on screen. */
    function Cards(now: int): seq<Termino>
      reads this
    {
      SortedView(terminos, filter, now)
    }

    /** `loadTerminos` against the rows the store holds. */
    method LoadTerminos(store: seq<Termino>, now: int)
      modifies this
      ensures terminos == ListRows(store, PageQuery, now)
      ensures stats == ComputeStats(store, now)
      ensures !loading && filter == old(filter)
    {
      var response := Get(store, PageQuery, now);
      terminos := response.terminos;
      stats := response.stats;
      loading := false;
    }

    method SetFilter(v: Vista)
      modifies this
      ensures filter == v
      ensures terminos == old(terminos) && stats == old(stats) && loading == old(loading)
    {
      filter := v;
    }

    /**
     * The checkbox of a card: ignored on a fulfilled card, otherwise the row is set to
     * 'cumplido' in the store and the page reloads. Returns the new store.
     */
    method ClickCheckbox(t: Termino, store: seq<Termino>, now: int) returns (store': seq<Termino>)
      modifies this
      ensures t.estado == "cumplido" ==>
        store' == store && terminos == old(terminos) && stats == old(stats) && loading == old(loading)
      ensures t.estado != "cumplido" ==>
        store' == UpdateEstado(store, t.id, "cumplido") && terminos == ListRows(store', PageQuery, now) && stats == ComputeStats(store', now) && !loading
      ensures filter == old(filter)
    {
      store' := store;
      if t.estado != "cumplido" {
        store' := UpdateEstado(store, t.id, "cumplido");
        LoadTerminos(store', now);
      }
    }

    /** `deleteTermino`: nothing happens unless the user confirms. */
    method DeleteTermino(id: string, confirmed: bool, store: seq<Termino>, now: int) returns (store': seq<Termino>)
      modifies this
      ensures !confirmed ==>
        store' == store && terminos == old(terminos) && stats == old(stats) && loading == old(loading)
      ensures confirmed ==>
        store' == Delete(store, id) && terminos == ListRows(store', PageQuery, now) && stats == ComputeStats(store', now) && !loading
      ensures filter == old(filter)
    {
      store' := store;
      if confirmed {
        store' := Delete(store, id);
        LoadTerminos(store', now);
      }
    }
  }
}
