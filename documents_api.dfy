/**
 * The server's document collection route: the upload, which stores the file as base64
 * text with a display type derived from its extension, and the listing, filtered by
 * category and case and newest first. The table is a sequence of rows; the generated id,
 * the creation time and a failure of the database are parameters.
 */
module DocumentsApi {
  import opened Wrappers
  import opened Seqs
  import opened Text
  import opened Base64

  /** A stored document row. */
  datatype DocumentRow = DocumentRow(
    id: string, name: string, docType: string, filename: string, data: string,
    size: nat, category: string, caseId: Option<string>, createdAt: int)

  /** The uploaded file of the form. */
  datatype UploadedFile = UploadedFile(name: string, size: nat, bytes: seq<byte>)

  /** The multipart form of a POST; an absent field is `None`. */
  datatype UploadForm = UploadForm(
    file: Option<UploadedFile>, name: Option<string>, category: Option<string>, caseId: Option<string>)

  /** What the POST answers with: the row is echoed without its data. */
  datatype Echo = Echo(id: string, name: string, filename: string, size: nat, category: string)

  datatype PostResponse =
    | Uploaded(success: bool, document: Echo)
    | PostFailed(status: int, error: string)

  /** 'PDF' for pdf, 'Word' for docx, and the upper-cased extension otherwise. */
  function DocType(ext: string): string {
    if ext == "pdf" then "PDF" else if ext == "docx" then "Word" else ToUpper(ext)
  }

  /**
   * Outside docx, the display type gives the extension back when lower-cased: it is the
   * extension in capitals.
   */
  lemma DocTypeRecoversExt(fileName: string)
    ensures var ext := FileExtension(fileName);
      ext != "docx" ==> ToLower(DocType(ext)) == ext
  {
    var ext := FileExtension(fileName);
    LowerUpperLower(LastSegment(fileName, '.'));
    if ext == "pdf" {
      assert ToUpper("pdf") == "PDF";
    }
  }

  /** The display name: the form's name, else the file's, else 'Sin nombre'. */
  function DisplayName(form: UploadForm): (r: string)
    ensures r != ""
    ensures Truthy(form.name) ==> r == form.name.value
    ensures !Truthy(form.name) && form.file.Some? && form.file.value.name != "" ==> r == form.file.value.name
    ensures !Truthy(form.name) && (form.file.None? || form.file.value.name == "") ==> r == "Sin nombre"
  {
    OrElse(form.name, if form.file.Some? then OrElse(Some(form.file.value.name), "Sin nombre") else "Sin nombre")
  }

  /** The row the POST creates for a form that carries a file. */
  function NewRow(form: UploadForm, id: string, createdAt: int): DocumentRow
    requires form.file.Some?
  {
    var f := form.file.value;
    DocumentRow(
      id, DisplayName(form), DocType(FileExtension(f.name)), f.name, Encode(f.bytes), f.size,
      OrElse(form.category, "documento"), if Truthy(form.caseId) then form.caseId else None, createdAt)
  }

  /**
   * POST. `createOk` is false when reading the file or creating the row throws. Returns
   * the table afterwards and the response.
   */
  function Post(rows: seq<DocumentRow>, form: UploadForm, id: string, createdAt: int, createOk: bool)
    : (r: (seq<DocumentRow>, PostResponse))
    ensures form.file.None? ==> r == (rows, PostFailed(400, "No se proporcionó archivo"))
    ensures form.file.Some? && !createOk ==> r == (rows, PostFailed(500, "Error al subir documento"))
    ensures form.file.Some? && createOk ==>
      var row := NewRow(form, id, createdAt);
      r.0 == rows + [row]
      && r.1 == Uploaded(true, Echo(row.id, row.name, row.filename, row.size, row.category))
  {
    if form.file.None? then (rows, PostFailed(400, "No se proporcionó archivo"))
    else if !createOk then (rows, PostFailed(500, "Error al subir documento"))
    else
      var row := NewRow(form, id, createdAt);
      (rows + [row], Uploaded(true, Echo(row.id, row.name, row.filename, row.size, row.category)))
  }

  /**
   * The row created for a file keeps every field of the upload: its name, its size, its
   * bytes (the stored text decodes back to them), the case only when one was given, the
   * category 'documento' unless another was given, and a display name that is never empty.
   */
  lemma NewRowSpec(form: UploadForm, id: string, createdAt: int)
    requires form.file.Some?
    ensures var row := NewRow(form, id, createdAt);
      && row.filename == form.file.value.name && row.size == form.file.value.size
      && Decode(row.data) == Some(form.file.value.bytes)
      && (row.caseId.Some? <==> Truthy(form.caseId))
      && (row.caseId.Some? ==> row.caseId == form.caseId)
      && row.category == (if Truthy(form.category) then form.category.value else "documento")
      && row.name != ""
      && (FileExtension(row.filename) != "docx" ==> ToLower(row.docType) == FileExtension(row.filename))
  {
    DecodeEncode(form.file.value.bytes);
    DocTypeRecoversExt(form.file.value.name);
  }

  /** The GET query string: a missing or empty parameter does not filter. */
  datatype ListQuery = ListQuery(category: Option<string>, caseId: Option<string>)

  predicate Matches(q: ListQuery, d: DocumentRow) {
    && (Truthy(q.category) ==> d.category == q.category.value)
    && (Truthy(q.caseId) ==> d.caseId == q.caseId)
  }

  /**
   * The selected columns: every column but the data and the case id. The GET selects the
   * included `case` relation instead, and of it only the case's id is kept, as `caseId`.
   */
  datatype Summary = Summary(
    id: string, name: string, docType: string, filename: string, size: nat,
    category: string, caseId: Option<string>, createdAt: int)

  function SummaryOf(d: DocumentRow): Summary {
    Summary(d.id, d.name, d.docType, d.filename, d.size, d.category, d.caseId, d.createdAt)
  }

  function NewestFirst(d: DocumentRow): int {
    -d.createdAt
  }

  /** The rows that match, newest first; rows of the same instant keep table order. */
  function Listed(rows: seq<DocumentRow>, q: ListQuery): seq<DocumentRow> {
    SortBy(Filter(rows, d => Matches(q, d)), NewestFirst)
  }

  datatype ListResponse = Documents(documents: seq<Summary>) | ListFailed(status: int, error: string)

  /** GET; `queryOk` is false when the query throws. */
  function Get(rows: seq<DocumentRow>, q: ListQuery, queryOk: bool): (r: ListResponse)
    ensures !queryOk <==> r == ListFailed(500, "Error al listar documentos")
    ensures r.Documents? ==> |r.documents| == Count(rows, d => Matches(q, d))
  {
    if !queryOk then ListFailed(500, "Error al listar documentos")
    else
      var l := Listed(rows, q);
      Documents(seq(|l|, i requires 0 <= i < |l| => SummaryOf(l[i])))
  }

  /** The sorted selection holds the matching rows and nothing else, newest first. */
  lemma ListedSpec(rows: seq<DocumentRow>, q: ListQuery)
    ensures var l := Listed(rows, q);
      && (forall i :: 0 <= i < |l| ==> l[i] in rows && Matches(q, l[i]))
      && (forall d :: d in rows && Matches(q, d) ==> d in l)
      && (forall i, j :: 0 <= i < j < |l| ==> l[i].createdAt >= l[j].createdAt)
  {
    var sel := Filter(rows, d => Matches(q, d));
    var l := Listed(rows, q);
    SortBySorted(sel, NewestFirst);
    forall i | 0 <= i < |l| ensures l[i] in rows && Matches(q, l[i]) {
      assert l[i] in multiset(sel);
    }
    forall d | d in rows && Matches(q, d) ensures d in l {
      assert d in multiset(l);
    }
    forall i, j | 0 <= i < j < |l| ensures l[i].createdAt >= l[j].createdAt {
      assert NewestFirst(l[i]) <= NewestFirst(l[j]);
    }
  }

  /**
   * The listing holds the summary of every matching row and of nothing else, as many as
   * there are matching rows, newest first.
   */
  lemma GetSpec(rows: seq<DocumentRow>, q: ListQuery)
    ensures var r := Get(rows, q, true).documents;
      && |r| == Count(rows, d => Matches(q, d))
      && (forall i :: 0 <= i < |r| ==> exists d :: d in rows && Matches(q, d) && r[i] == SummaryOf(d))
      && (forall d :: d in rows && Matches(q, d) ==> SummaryOf(d) in r)
      && (forall i, j :: 0 <= i < j < |r| ==> r[i].createdAt >= r[j].createdAt)
  {
    ListedSpec(rows, q);
    GetSummarizesListed(rows, q);
  }

  /** Each summary of the listing is that of the listed row at its position. */
  lemma GetSummarizesListed(rows: seq<DocumentRow>, q: ListQuery)
    ensures var l := Listed(rows, q);
      var r := Get(rows, q, true).documents;
      && |r| == |l|
      && (forall i :: 0 <= i < |r| ==> r[i] == SummaryOf(l[i]))
      && (forall d :: d in l ==> SummaryOf(d) in r)
  {
    var l := Listed(rows, q);
    var r := Get(rows, q, true).documents;
    forall d | d in l ensures SummaryOf(d) in r {
      var j :| 0 <= j < |l| && l[j] == d;
      assert r[j] == SummaryOf(d);
    }
  }

  /** A row uploaded to a case is listed for that case, whatever the category filter says of others. */
  lemma UploadedIsListed(rows: seq<DocumentRow>, form: UploadForm, id: string, createdAt: int)
    requires form.file.Some? && Truthy(form.caseId)
    ensures var after := Post(rows, form, id, createdAt, true).0;
      SummaryOf(NewRow(form, id, createdAt)) in Get(after, ListQuery(None, form.caseId), true).documents
  {
    var after := Post(rows, form, id, createdAt, true).0;
    var row := NewRow(form, id, createdAt);
    assert row in after;
    GetSpec(after, ListQuery(None, form.caseId));
  }
}
