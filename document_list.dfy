/**
 * The document list of a case in the browser-local store: the icon and MIME type chosen
 * for a stored type, the file offered for download, and the list reloaded after a
 * confirmed delete.
 */
module DocumentList {
  import opened Wrappers
  import opened Base64
  import opened LocalDb
  import DocumentUpload

  const PdfIcon: string := "\U{1F4C4}"
  const WordIcon: string := "\U{1F4DD}"
  const OtherIcon: string := "\U{1F4CE}"

  /** `getIcon`. */
  function Icon(docType: string): (r: string)
    ensures r == PdfIcon <==> docType == "pdf"
    ensures r == WordIcon <==> docType == "doc" || docType == "docx"
    ensures r == OtherIcon <==> docType !in {"pdf", "doc", "docx"}
  {
    match docType
    case "pdf" => PdfIcon
    case "doc" => WordIcon
    case "docx" => WordIcon
    case _ => OtherIcon
  }

  const OctetStream: string := "application/octet-stream"

  /** The `mimeTypes` record of `handleDownload`. */
  const MimeTypes: map<string, string> := map[
    "pdf" := "application/pdf",
    "doc" := "application/msword",
    "docx" := "application/vnd.openxmlformats-officedocument.wordprocessingml.document"
  ]

  /** `mimeTypes[doc.type] || 'application/octet-stream'`. */
  function MimeType(docType: string): (r: string)
    ensures docType == "pdf" ==> r == "application/pdf"
    ensures docType == "doc" ==> r == "application/msword"
    ensures docType == "docx" ==> r == "application/vnd.openxmlformats-officedocument.wordprocessingml.document"
    ensures r == OctetStream <==> docType !in {"pdf", "doc", "docx"}
  {
    if docType in MimeTypes && MimeTypes[docType] != "" then MimeTypes[docType] else OctetStream
  }

  /** Every file the upload component saves is listed with a document icon and a known MIME type. */
  lemma UploadedTypesKnown(f: DocumentUpload.PickedFile, id: string, caseId: string, createdAt: string)
    requires DocumentUpload.Accepted(f)
    ensures var t := DocumentUpload.RecordOf(f, id, caseId, createdAt).docType;
      Icon(t) != OtherIcon && MimeType(t) != OctetStream
  {
    DocumentUpload.AcceptedRecord(f, id, caseId, createdAt);
  }

  /** The blob offered by the download link and the name it is saved under. */
  datatype Download = Download(fileName: string, mimeType: string, data: seq<byte>)

  /** `handleDownload`: nothing for an id the store does not hold. */
  function DownloadOf(documents: map<string, DocRec>, docId: string): (r: Option<Download>)
    ensures r.None? <==> docId !in documents
    ensures r.Some? ==>
      var d := documents[docId];
      r.value.fileName == d.name && r.value.data == d.data && r.value.mimeType == MimeType(d.docType)
  {
    if docId in documents then
      var d := documents[docId];
      Some(Download(d.name, MimeType(d.docType), d.data))
    else None
  }

  /** The `DocumentList` component of one case. */
  class DocumentListView {
    const caseId: string
    var documents: seq<DocRec>
    var loading: bool

    constructor (caseId: string)
      ensures this.caseId == caseId && documents == [] && loading
    {
      this.caseId := caseId;
      documents := [];
      loading := true;
    }

    /** `loadDocuments`: the list becomes the documents of the case, each once. */
    method LoadDocuments(store: LegalStore)
      requires store.Valid()
      modifies this
      ensures forall d :: d in documents <==> d in store.documents.Values && d.caseId == caseId
      ensures forall i, j :: 0 <= i < j < |documents| ==> documents[i].id != documents[j].id
      ensures !loading
    {
      documents := store.DocumentsByCase(caseId);
      loading := false;
    }

    /**
     * `handleDelete`: without confirmation nothing changes; with it the record goes from
     * the store, nothing else in the store changes, and the reloaded list no longer shows it.
     */
    method HandleDelete(store: LegalStore, docId: string, confirmed: bool)
      requires store.Valid()
      modifies this, store
      ensures store.Valid()
      ensures !confirmed ==>
        documents == old(documents) && loading == old(loading) && store.Contents() == old(store.Contents())
      ensures confirmed ==>
        && store.documents == old(store.documents) - {docId}
        && store.clients == old(store.clients) && store.cases == old(store.cases)
        && store.hearings == old(store.hearings)
        && (forall d :: d in documents <==> d in store.documents.Values && d.caseId == caseId)
        && (forall d :: d in documents ==> d.id != docId)
        && !loading
    {
      if !confirmed {
        return;
      }
      store.DeleteDocument(docId);
      LoadDocuments(store);
    }
  }
}
