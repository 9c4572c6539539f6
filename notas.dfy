/**
 * The "Tareas" (notes) page: the relative reminder label, the payload `saveNota` sends
 * and the editor state that `saveNota`, `editNota` and `newNota` replace. Instants are
 * milliseconds; reminder days are NOT taken from midnights here.
 */
module Notas {
  import opened Wrappers
  import opened Seqs
  import opened Text
  import opened Calendar

  /** A task as the page receives it; `dueDate` is the serialized date-time text. */
  datatype Nota = Nota(
    id: string,
    title: string,
    description: Option<string>,
    dueDate: Option<string>,
    status: string,
    createdAt: string)

  /** `Math.ceil((due - now) / 86400000)` on the raw instants. */
  function ReminderDays(due: int, now: int): int {
    CeilDays(due - now)
  }

  /** What `formatDate` shows; `OnDate` stands for the locale date text. */
  datatype ReminderLabel = Hace(days: nat) | Hoy | Manana | OnDate(due: int)

  datatype Tone = Red400 | Amber400 | Stone400

  /** `formatDate(date)`: the label, then its colour. */
  function FormatDate(due: int, now: int): (r: (ReminderLabel, Tone))
    ensures r.0.Hace? <==> r.1 == Red400
    ensures r.0.OnDate? <==> r.1 == Stone400
    ensures r.0.Hace? ==> r.0.days == -ReminderDays(due, now)
  {
    var days := ReminderDays(due, now);
    if days < 0 then (Hace(-days), Red400)
    else if days == 0 then (Hoy, Amber400)
    else if days == 1 then (Manana, Amber400)
    else (OnDate(due), Stone400)
  }

  function LabelText(l: ReminderLabel): string
    requires !l.OnDate?
  {
    match l
    case Hace(n) => "Hace " + NatToString(n) + " día(s)"
    case Hoy => "Hoy"
    case Manana => "Mañana"
  }

  /**
   * The label by elapsed time: up to 24 hours ahead reads 'Mañana', now and up to 24 hours
   * back reads 'Hoy', a whole day or more back reads 'Hace n día(s)', more than a day
   * ahead shows the date.
   */
  lemma FormatDateWindows(due: int, now: int)
    ensures FormatDate(due, now).0 == Hoy <==> now - MsPerDay < due <= now
    ensures FormatDate(due, now).0 == Manana <==> now < due <= now + MsPerDay
    ensures FormatDate(due, now).0.Hace? <==> due <= now - MsPerDay
    ensures FormatDate(due, now).0.OnDate? <==> due > now + MsPerDay
  {
    var d := ReminderDays(due, now);
    assert (d - 1) * MsPerDay < due - now <= d * MsPerDay;
    if due <= now - MsPerDay {
      assert d < 0;
    } else if due <= now {
      CeilDaysUnique(due - now, 0);
    } else if due <= now + MsPerDay {
      CeilDaysUnique(due - now, 1);
    } else {
      assert d > 1;
    }
  }

  /** The body `saveNota` sends. */
  datatype Payload = Payload(title: string, description: string, dueDate: Option<string>, priority: string)

  const TitleLength: nat := 100

  function MakePayload(content: string, reminder: string): (p: Payload)
    ensures |p.title| <= TitleLength && |p.title| <= |content| && p.title == content[..|p.title|]
    ensures |content| <= TitleLength ==> p.title == content
    ensures |content| > TitleLength ==> |p.title| == TitleLength
    ensures p.description == content
    ensures p.dueDate.None? <==> reminder == ""
    ensures p.dueDate.Some? ==> p.dueDate.value == reminder
    ensures p.priority == "media"
  {
    Payload(Take(content, TitleLength), content, if reminder == "" then None else Some(reminder), "media")
  }

  /** The request a save sends, if any. */
  datatype Request = NoRequest | Put(id: string, body: Payload) | Post(body: Payload)

  /** `saveNota`'s request: none for blank content, a PUT while editing, a POST otherwise. */
  function SaveRequest(content: string, reminder: string, editing: Option<Nota>): (r: Request)
    ensures r.NoRequest? <==> IsBlank(content)
    ensures !IsBlank(content) && editing.Some? ==> r == Put(editing.value.id, MakePayload(content, reminder))
    ensures !IsBlank(content) && editing.None? ==> r == Post(MakePayload(content, reminder))
  {
    TrimEmptyIffBlank(content);
    if Trim(content) == "" then NoRequest
    else if editing.Some? then Put(editing.value.id, MakePayload(content, reminder))
    else Post(MakePayload(content, reminder))
  }

  /** The text `editNota` loads: the description, or the title when it has none. */
  function EditContent(n: Nota): string {
    if n.description.Some? && n.description.value != "" then n.description.value else n.title
  }

  /** The reminder `editNota` loads: the date part of `dueDate`, or '' without one. */
  function EditReminder(n: Nota): (r: string)
    ensures n.dueDate.None? || n.dueDate.value == "" ==> r == ""
    ensures n.dueDate.Some? ==> |r| <= |n.dueDate.value| && r == n.dueDate.value[..|r|] && 'T' !in r
    ensures n.dueDate.Some? && |r| < |n.dueDate.value| ==> n.dueDate.value[|r|] == 'T'
  {
    if n.dueDate.Some? && n.dueDate.value != "" then FirstSegment(n.dueDate.value, 'T') else ""
  }

  /**
   * Opening a note and saving it unchanged sends a PUT to that note which keeps its
   * description and the date part of its due date, and whose title is the description's
   * first 100 characters.
   */
  lemma EditThenSave(n: Nota)
    requires n.description.Some? && !IsBlank(n.description.value)
    ensures var r := SaveRequest(EditContent(n), EditReminder(n), Some(n));
      && r.Put? && r.id == n.id
      && r.body.description == n.description.value
      && |r.body.title| <= |n.description.value| && r.body.title == n.description.value[..|r.body.title|]
      && (r.body.dueDate.Some? ==> n.dueDate.Some? && r.body.dueDate.value == FirstSegment(n.dueDate.value, 'T'))
  {
    assert n.description.value != "";
  }

  /** The editor state of the page. */
  class NotasEditor {
    var notas: seq<Nota>
    var loading: bool
    var showEditor: bool
    var editingNota: Option<Nota>
    var content: string
    var reminder: string

    constructor ()
      ensures notas == [] && loading && !showEditor && editingNota == None && content == "" && reminder == ""
    {
      notas := [];
      loading := true;
      showEditor := false;
      editingNota := None;
      content := "";
      reminder := "";
    }

    /** `loadNotas`: the fetched tasks replace the list. */
    method LoadNotas(fetched: seq<Nota>)
      modifies this
      ensures notas == fetched && !loading
      ensures showEditor == old(showEditor) && editingNota == old(editingNota)
      ensures content == old(content) && reminder == old(reminder)
    {
      notas := fetched;
      loading := false;
    }

    /**
     * `saveNota`: blank content changes nothing and sends nothing; otherwise the request
     * is sent and the editor is cleared and closed (the list is then reloaded).
     */
    method SaveNota() returns (req: Request)
      modifies this
      ensures req == SaveRequest(old(content), old(reminder), old(editingNota))
      ensures req.NoRequest? ==>
        content == old(content) && reminder == old(reminder) && editingNota == old(editingNota) && showEditor == old(showEditor)
      ensures !req.NoRequest? ==> content == "" && reminder == "" && editingNota == None && !showEditor
      ensures notas == old(notas) && loading == old(loading)
    {
      req := SaveRequest(content, reminder, editingNota);
      if !req.NoRequest? {
        content := "";
        reminder := "";
        editingNota := None;
        showEditor := false;
      }
    }

    /** `editNota(n)`. */
    method EditNota(n: Nota)
      modifies this
      ensures editingNota == Some(n) && content == EditContent(n) && reminder == EditReminder(n) && showEditor
      ensures notas == old(notas) && loading == old(loading)
    {
      editingNota := Some(n);
      content := EditContent(n);
      reminder := EditReminder(n);
      showEditor := true;
    }

    /** `newNota`. */
    method NewNota()
      modifies this
      ensures editingNota == None && content == "" && reminder == "" && showEditor
      ensures notas == old(notas) && loading == old(loading)
    {
      editingNota := None;
      content := "";
      reminder := "";
      showEditor := true;
    }
  }
}
