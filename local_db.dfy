/**
 * The browser-local store of `src/lib/db.ts`: the four object stores as maps from id
 * to record, the lookups, listing and deletion of documents, the byte/binary-string
 * loops around `btoa` and `atob`, the export of every store, and the import that clears
 * the stores and puts each section's records back by id.
 */
module LocalDb {
  import opened Wrappers
  import opened Base64
  import opened Seqs

  const DbVersion: int := 1

  datatype ClientRec = ClientRec(
    id: string, name: string, phone: string, email: Option<string>, rfc: Option<string>,
    curp: Option<string>, address: Option<string>, notes: Option<string>,
    createdAt: string, updatedAt: string)

  datatype CaseRec = CaseRec(
    id: string, clientId: string, caseNumber: Option<string>, matter: string, caseType: string,
    status: string, court: Option<string>, judge: Option<string>, opponent: Option<string>,
    opponentLawyer: Option<string>, description: Option<string>, notes: Option<string>,
    startDate: string, createdAt: string, updatedAt: string)

  /** A stored document; `data` is the file's bytes. */
  datatype DocRec = DocRec(
    id: string, caseId: string, name: string, docType: string, size: nat, data: seq<byte>, createdAt: string)

  datatype HearingRec = HearingRec(
    id: string, caseId: string, date: string, time: string, hearingType: string, status: string,
    notes: Option<string>, createdAt: string)

  /** A document in a backup: every field kept, `data` as base64 text. */
  datatype ExportedDoc = ExportedDoc(
    id: string, caseId: string, name: string, docType: string, size: nat, data: string, createdAt: string)

  function ClientId(r: ClientRec): string { r.id }
  function CaseId(r: CaseRec): string { r.id }
  function DocId(r: DocRec): string { r.id }
  function HearingId(r: HearingRec): string { r.id }

  /** Every record is stored under its own id, the stores' key path. */
  predicate Keyed<V>(m: map<string, V>, id: V -> string) {
    forall k :: k in m ==> id(m[k]) == k
  }

  /** `put` of each record in turn: a record replaces any earlier one with its id. */
  function PutAll<V>(store: map<string, V>, rs: seq<V>, id: V -> string): map<string, V>
    decreases |rs|
  {
    if rs == [] then store
    else PutAll(store, rs[..|rs| - 1], id)[id(rs[|rs| - 1]) := rs[|rs| - 1]]
  }

  /**
   * After the puts the store holds its old keys and the records' ids; each id holds the
   * last record put with it; a store keyed by id stays keyed by id.
   */
  lemma PutAllSpec<V>(store: map<string, V>, rs: seq<V>, id: V -> string)
    ensures var m := PutAll(store, rs, id);
      && (forall k :: k in m <==> k in store || exists i :: 0 <= i < |rs| && id(rs[i]) == k)
      && (forall i :: 0 <= i < |rs| && (forall j :: i < j < |rs| ==> id(rs[j]) != id(rs[i])) ==> m[id(rs[i])] == rs[i])
      && (forall k :: k in store && (forall i :: 0 <= i < |rs| ==> id(rs[i]) != k) ==> m[k] == store[k])
      && (Keyed(store, id) ==> Keyed(m, id))
  {
    PutAllKeys(store, rs, id);
    PutAllLast(store, rs, id);
    PutAllUntouched(store, rs, id);
    if Keyed(store, id) {
      PutAllKeyed(store, rs, id);
    }
  }

  lemma {:induction false} PutAllKeys<V>(store: map<string, V>, rs: seq<V>, id: V -> string)
    ensures forall k :: k in PutAll(store, rs, id) <==> k in store || exists i :: 0 <= i < |rs| && id(rs[i]) == k
    decreases |rs|
  {
    if rs != [] {
      var init := rs[..|rs| - 1];
      PutAllKeys(store, init, id);
      assert forall i :: 0 <= i < |init| ==> init[i] == rs[i];
    }
  }

  lemma {:induction false} PutAllLast<V>(store: map<string, V>, rs: seq<V>, id: V -> string)
    ensures forall i :: 0 <= i < |rs| && (forall j :: i < j < |rs| ==> id(rs[j]) != id(rs[i])) ==>
      id(rs[i]) in PutAll(store, rs, id) && PutAll(store, rs, id)[id(rs[i])] == rs[i]
    decreases |rs|
  {
    if rs != [] {
      var init := rs[..|rs| - 1];
      PutAllLast(store, init, id);
      assert forall i :: 0 <= i < |init| ==> init[i] == rs[i];
    }
  }

  lemma {:induction false} PutAllUntouched<V>(store: map<string, V>, rs: seq<V>, id: V -> string)
    ensures forall k :: k in store && (forall i :: 0 <= i < |rs| ==> id(rs[i]) != k) ==>
      k in PutAll(store, rs, id) && PutAll(store, rs, id)[k] == store[k]
    decreases |rs|
  {
    if rs != [] {
      var init := rs[..|rs| - 1];
      PutAllUntouched(store, init, id);
      assert forall i :: 0 <= i < |init| ==> init[i] == rs[i];
    }
  }

  lemma {:induction false} PutAllKeyed<V>(store: map<string, V>, rs: seq<V>, id: V -> string)
    requires Keyed(store, id)
    ensures Keyed(PutAll(store, rs, id), id)
    decreases |rs|
  {
    if rs != [] {
      PutAllKeyed(store, rs[..|rs| - 1], id);
    }
  }

  /** `let binary = ''; binary += String.fromCharCode(bytes[i])`: one character per byte, of that code. */
  function BinaryOf(bs: seq<byte>): (s: string)
    ensures |s| == |bs| && forall i :: 0 <= i < |bs| ==> s[i] as int == bs[i]
  {
    seq(|bs|, i requires 0 <= i < |bs| => bs[i] as char)
  }

  /** `bytes[i] = binary.charCodeAt(i)` into a `Uint8Array`: each code reduced modulo 256. */
  function BytesOf(s: string): (bs: seq<byte>)
    ensures |bs| == |s| && forall i :: 0 <= i < |s| ==> bs[i] == s[i] as int % 256
  {
    seq(|s|, i requires 0 <= i < |s| => s[i] as int % 256)
  }

  /** The two loops compose to the identity on bytes. */
  lemma BinaryRoundTrip(bs: seq<byte>)
    ensures BytesOf(BinaryOf(bs)) == bs
  {
  }

  /** `btoa`: base64 of a binary string; `None` is the error thrown for a character above 255. */
  function Btoa(s: string): (r: Option<string>)
    ensures r.Some? <==> forall i :: 0 <= i < |s| ==> s[i] as int < 256
  {
    if forall i :: 0 <= i < |s| ==> s[i] as int < 256 then Some(Encode(BytesOf(s))) else None
  }

  /** `atob`: the binary string of the decoded bytes; `None` is the error thrown on bad input. */
  function Atob(s: string): (r: Option<string>)
    ensures r.Some? <==> Decode(s).Some?
  {
    var d := Decode(s);
    if d.None? then None else Some(BinaryOf(d.value))
  }

  /** `arrayBufferToBase64`. */
  method ArrayBufferToBase64(buffer: seq<byte>) returns (text: string)
    ensures text == Encode(buffer)
  {
    var binary := "";
    var i := 0;
    while i < |buffer|
      invariant 0 <= i <= |buffer|
      invariant binary == BinaryOf(buffer[..i])
    {
      binary := binary + [buffer[i] as char];
      i := i + 1;
    }
    assert buffer[..i] == buffer;
    BinaryRoundTrip(buffer);
    text := Btoa(binary).value;
  }

  /** `base64ToArrayBuffer`: a fresh buffer of the decoded bytes, or `None` when `atob` throws. */
  method Base64ToArrayBuffer(text: string) returns (r: Option<array<byte>>)
    ensures r.Some? <==> Decode(text).Some?
    ensures r.Some? ==> fresh(r.value) && r.value[..] == Decode(text).value
  {
    var binary := Atob(text);
    if binary.None? {
      return None;
    }
    var b := binary.value;
    var bytes := new byte[|b|];
    var i := 0;
    while i < |b|
      invariant 0 <= i <= |b|
      invariant bytes[..i] == BytesOf(b)[..i]
    {
      bytes[i] := b[i] as int % 256;
      i := i + 1;
    }
    assert bytes[..] == BytesOf(b);
    BinaryRoundTrip(Decode(text).value);
    r := Some(bytes);
  }

  function ExportDoc(d: DocRec): ExportedDoc {
    ExportedDoc(d.id, d.caseId, d.name, d.docType, d.size, Encode(d.data), d.createdAt)
  }

  function EncodeDocs(ds: seq<DocRec>): (r: seq<ExportedDoc>)
    ensures |r| == |ds| && forall i :: 0 <= i < |ds| ==> r[i] == ExportDoc(ds[i])
  {
    seq(|ds|, i requires 0 <= i < |ds| => ExportDoc(ds[i]))
  }

  /** One imported document: the record with its data decoded, or `None` when `atob` throws. */
  function ImportDoc(e: ExportedDoc): Option<DocRec> {
    var d := Decode(e.data);
    if d.None? then None else Some(DocRec(e.id, e.caseId, e.name, e.docType, e.size, d.value, e.createdAt))
  }

  /**
   * The documents decoded in turn until the first one that fails: the records decoded
   * before it, and whether every document decoded.
   */
  function ImportDocs(es: seq<ExportedDoc>): (seq<DocRec>, bool)
    decreases |es|
  {
    if es == [] then ([], true)
    else
      var p := ImportDocs(es[..|es| - 1]);
      if !p.1 then p
      else
        var d := ImportDoc(es[|es| - 1]);
        if d.None? then (p.0, false) else (p.0 + [d.value], true)
  }

  /** A failure stops the decoding: documents after it change nothing. */
  lemma {:induction false} ImportDocsStops(es: seq<ExportedDoc>, n: nat)
    requires n <= |es| && !ImportDocs(es[..n]).1
    ensures ImportDocs(es) == ImportDocs(es[..n])
    decreases |es|
  {
    if n < |es| {
      assert es[..|es| - 1][..n] == es[..n];
      ImportDocsStops(es[..|es| - 1], n);
    } else {
      assert es[..n] == es;
    }
  }

  /** Exported documents import back to the same records. */
  lemma {:induction false} ImportExportedDocs(ds: seq<DocRec>)
    ensures ImportDocs(EncodeDocs(ds)) == (ds, true)
    decreases |ds|
  {
    if ds != [] {
      var init := ds[..|ds| - 1];
      assert EncodeDocs(ds)[..|ds| - 1] == EncodeDocs(init);
      ImportExportedDocs(init);
      DecodeEncode(ds[|ds| - 1].data);
      assert init + [ds[|ds| - 1]] == ds;
    }
  }

  /** The contents of the four stores. */
  datatype Stores = Stores(
    clients: map<string, ClientRec>,
    cases: map<string, CaseRec>,
    documents: map<string, DocRec>,
    hearings: map<string, HearingRec>)

  predicate KeyedStores(s: Stores) {
    Keyed(s.clients, ClientId) && Keyed(s.cases, CaseId) && Keyed(s.documents, DocId) && Keyed(s.hearings, HearingId)
  }

  /** The object `exportAllData` returns; `exportedAt` is the time text the caller supplies. */
  datatype Backup = Backup(
    version: int,
    exportedAt: string,
    clients: seq<ClientRec>,
    cases: seq<CaseRec>,
    documents: seq<ExportedDoc>,
    hearings: seq<HearingRec>)

  /**
   * `b` is an export of `s`: version 1, the clients, cases and hearings listed once each
   * as stored, and the documents listed once each with their data in base64.
   */
  ghost predicate IsExportOf(b: Backup, s: Stores) {
    && b.version == DbVersion
    && PutAll(map[], b.clients, ClientId) == s.clients && |b.clients| == |s.clients|
    && PutAll(map[], b.cases, CaseId) == s.cases && |b.cases| == |s.cases|
    && PutAll(map[], b.hearings, HearingId) == s.hearings && |b.hearings| == |s.hearings|
    && exists raw :: |raw| == |s.documents| && PutAll(map[], raw, DocId) == s.documents && b.documents == EncodeDocs(raw)
  }

  /** The argument of `importAllData`; a missing section is `None` and counts as empty. */
  datatype ImportData = ImportData(
    clients: Option<seq<ClientRec>>,
    cases: Option<seq<CaseRec>>,
    documents: Option<seq<ExportedDoc>>,
    hearings: Option<seq<HearingRec>>)

  function ImportDataOf(b: Backup): ImportData {
    ImportData(Some(b.clients), Some(b.cases), Some(b.documents), Some(b.hearings))
  }

  /**
   * The stores after `importAllData`, and whether it returned: every store emptied, then
   * each section put in turn. A document whose data `atob` rejects throws there, leaving
   * the documents before it and no hearings.
   */
  function ImportStores(data: ImportData): (Stores, bool) {
    var docs := ImportDocs(data.documents.GetOr([]));
    (Stores(
      PutAll(map[], data.clients.GetOr([]), ClientId),
      PutAll(map[], data.cases.GetOr([]), CaseId),
      PutAll(map[], docs.0, DocId),
      if docs.1 then PutAll(map[], data.hearings.GetOr([]), HearingId) else map[]),
     docs.1)
  }

  /** Importing imposes the import's contents: every store is keyed by id afterwards. */
  lemma ImportedStoresKeyed(data: ImportData)
    ensures KeyedStores(ImportStores(data).0)
  {
    var docs := ImportDocs(data.documents.GetOr([]));
    PutAllSpec(map[], data.clients.GetOr([]), ClientId);
    PutAllSpec(map[], data.cases.GetOr([]), CaseId);
    PutAllSpec(map[], docs.0, DocId);
    PutAllSpec(map[], data.hearings.GetOr([]), HearingId);
  }

  /** Importing an export restores all four stores exactly. */
  lemma ExportImportRoundTrip(b: Backup, s: Stores)
    requires IsExportOf(b, s)
    ensures ImportStores(ImportDataOf(b)) == (s, true)
  {
    var raw :| |raw| == |s.documents| && PutAll(map[], raw, DocId) == s.documents && b.documents == EncodeDocs(raw);
    ImportExportedDocs(raw);
  }

  /** The part of `m` on the keys `ks`. */
  function Restrict<V>(m: map<string, V>, ks: set<string>): map<string, V> {
    map k | k in m.Keys && k in ks :: m[k]
  }

  lemma RestrictAdd<V>(m: map<string, V>, ks: set<string>, k: string)
    requires k in m
    ensures Restrict(m, ks)[k := m[k]] == Restrict(m, ks + {k})
  {
  }

  /** The listing so far: each listed record is the one stored under its id, once. */
  ghost predicate ListedOnce<V>(m: map<string, V>, id: V -> string, r: seq<V>, done: set<string>) {
    && (forall i :: 0 <= i < |r| ==> id(r[i]) in done && id(r[i]) in m && r[i] == m[id(r[i])])
    && (forall k :: k in done && k in m ==> m[k] in r)
    && (forall i, j :: 0 <= i < j < |r| ==> id(r[i]) != id(r[j]))
  }

  lemma ListedOnceStep<V>(m: map<string, V>, id: V -> string, r: seq<V>, done: set<string>, k: string)
    requires Keyed(m, id) && k in m && k !in done
    requires ListedOnce(m, id, r, done)
    ensures ListedOnce(m, id, r + [m[k]], done + {k})
  {
    var r' := r + [m[k]];
    forall i, j | 0 <= i < j < |r'| ensures id(r'[i]) != id(r'[j]) {
      if j == |r| {
        assert id(r'[j]) == k;
      }
    }
  }

  /** The invariant of the loop of `ListValues`: `r` lists the records of the keys `done`. */
  ghost predicate Listing<V>(m: map<string, V>, id: V -> string, r: seq<V>, done: set<string>) {
    PutAll(map[], r, id) == Restrict(m, done) && |r| == |done| && ListedOnce(m, id, r, done)
  }

  /** Listing one more of the keys `left` keeps the invariant. */
  lemma ListStep<V>(m: map<string, V>, id: V -> string, r: seq<V>, left: set<string>, k: string)
    requires Keyed(m, id) && k in left && left <= m.Keys
    requires Listing(m, id, r, m.Keys - left)
    ensures Listing(m, id, r + [m[k]], m.Keys - (left - {k}))
  {
    var done := m.Keys - left;
    assert m.Keys - (left - {k}) == done + {k};
    assert (r + [m[k]])[..|r|] == r;
    assert PutAll(map[], r + [m[k]], id) == Restrict(m, done)[k := m[k]];
    RestrictAdd(m, done, k);
    ListedOnceStep(m, id, r, done, k);
  }

  /** Before the loop nothing is listed. */
  lemma ListStart<V>(m: map<string, V>, id: V -> string)
    ensures Listing(m, id, [], m.Keys - m.Keys)
  {
    assert m.Keys - m.Keys == {};
    assert Restrict(m, {}) == map[];
  }

  /** Once no key is left, `r` puts back the whole store. */
  lemma ListDone<V>(m: map<string, V>, id: V -> string, r: seq<V>, left: set<string>)
    requires left == {} && Listing(m, id, r, m.Keys - left)
    ensures |r| == |m| && PutAll(map[], r, id) == m
    ensures ListedOnce(m, id, r, m.Keys)
  {
    assert m.Keys - left == m.Keys;
    assert Restrict(m, m.Keys) == m;
  }

  /** `getAll`: every record of a keyed store once, in an order the model leaves open. */
  method ListValues<V(==)>(m: map<string, V>, id: V -> string) returns (r: seq<V>)
    requires Keyed(m, id)
    ensures |r| == |m| && PutAll(map[], r, id) == m
    ensures ListedOnce(m, id, r, m.Keys)
  {
    r := [];
    var left := m.Keys;
    ListStart(m, id);
    while left != {}
      invariant left <= m.Keys
      invariant Listing(m, id, r, m.Keys - left)
      decreases |left|
    {
      var k :| k in left;
      ListStep(m, id, r, left, k);
      r := r + [m[k]];
      left := left - {k};
    }
    ListDone(m, id, r, left);
  }

  /** The `for ... of` loop of `put`s over one section. */
  method PutEach<V>(store: map<string, V>, rs: seq<V>, id: V -> string) returns (m: map<string, V>)
    ensures m == PutAll(store, rs, id)
  {
    m := store;
    var i := 0;
    while i < |rs|
      invariant 0 <= i <= |rs|
      invariant m == PutAll(store, rs[..i], id)
    {
      assert rs[..i + 1][..i] == rs[..i];
      m := m[id(rs[i]) := rs[i]];
      i := i + 1;
    }
    assert rs[..i] == rs;
  }

  /** The `documents` section of `exportAllData`: each record with its data as base64 text. */
  method ExportDocs(ds: seq<DocRec>) returns (exported: seq<ExportedDoc>)
    ensures exported == EncodeDocs(ds)
  {
    exported := [];
    var i := 0;
    while i < |ds|
      invariant 0 <= i <= |ds|
      invariant exported == EncodeDocs(ds[..i])
    {
      var data := ArrayBufferToBase64(ds[i].data);
      var d := ds[i];
      exported := exported + [ExportedDoc(d.id, d.caseId, d.name, d.docType, d.size, data, d.createdAt)];
      i := i + 1;
    }
    assert ds[..i] == ds;
  }

  /** The four object stores. */
  class LegalStore {
    var clients: map<string, ClientRec>
    var cases: map<string, CaseRec>
    var documents: map<string, DocRec>
    var hearings: map<string, HearingRec>

    function Contents(): Stores
      reads this
    {
      Stores(clients, cases, documents, hearings)
    }

    predicate Valid()
      reads this
    {
      KeyedStores(Contents())
    }

    constructor ()
      ensures Valid() && clients == map[] && cases == map[] && documents == map[] && hearings == map[]
    {
      clients := map[];
      cases := map[];
      documents := map[];
      hearings := map[];
    }

    /** `exportAllData`: leaves the stores as they are and returns their export. */
    method ExportAllData(exportedAt: string) returns (b: Backup)
      requires Valid()
      ensures IsExportOf(b, Contents()) && b.exportedAt == exportedAt
    {
      var cs := ListValues(clients, ClientId);
      var ks := ListValues(cases, CaseId);
      var ds := ListValues(documents, DocId);
      var hs := ListValues(hearings, HearingId);
      var exported := ExportDocs(ds);
      b := Backup(DbVersion, exportedAt, cs, ks, exported, hs);
    }

    /**
     * `importAllData`: the stores' new contents are those of `ImportStores`, whatever they
     * held before; `ok` is false when the call throws on a document's data.
     */
    method ImportAllData(data: ImportData) returns (ok: bool)
      modifies this
      ensures (Contents(), ok) == ImportStores(data)
      ensures Valid()
    {
      clients := map[];
      cases := map[];
      documents := map[];
      hearings := map[];
      clients := PutEach(clients, data.clients.GetOr([]), ClientId);
      cases := PutEach(cases, data.cases.GetOr([]), CaseId);
      var es := data.documents.GetOr([]);
      var i := 0;
      while i < |es|
        invariant 0 <= i <= |es|
        invariant ImportDocs(es[..i]).1
        invariant documents == PutAll(map[], ImportDocs(es[..i]).0, DocId)
        invariant clients == PutAll(map[], data.clients.GetOr([]), ClientId)
        invariant cases == PutAll(map[], data.cases.GetOr([]), CaseId)
        invariant hearings == map[]
      {
        var e := es[i];
        assert es[..i + 1][..i] == es[..i];
        var bytes := Base64ToArrayBuffer(e.data);
        if bytes.None? {
          ImportDocsStops(es, i + 1);
          ImportedStoresKeyed(data);
          return false;
        }
        var d := DocRec(e.id, e.caseId, e.name, e.docType, e.size, bytes.value[..], e.createdAt);
        documents := documents[e.id := d];
        i := i + 1;
      }
      assert es[..i] == es;
      hearings := PutEach(hearings, data.hearings.GetOr([]), HearingId);
      ImportedStoresKeyed(data);
      ok := true;
    }

    /** `getDocument`: the record stored under `id`, if any. */
    function GetDocument(id: string): (r: Option<DocRec>)
      reads this
      ensures r.Some? <==> id in documents
      ensures r.Some? ==> r.value == documents[id] && (Valid() ==> r.value.id == id)
    {
      if id in documents then Some(documents[id]) else None
    }

    /** `getDocumentsByCase`: the `by-case` index lookup lists each document of the case once. */
    method DocumentsByCase(caseId: string) returns (r: seq<DocRec>)
      requires Valid()
      ensures forall d :: d in r <==> d in documents.Values && d.caseId == caseId
      ensures forall i, j :: 0 <= i < j < |r| ==> r[i].id != r[j].id
    {
      var ds := ListValues(documents, DocId);
      var ofCase := (d: DocRec) => d.caseId == caseId;
      r := Filter(ds, ofCase);
      assert DistinctBy(ds, DocId);
      FilterDistinct(ds, ofCase, DocId);
    }

    /** `deleteDocument`: removes the record under `id`, if any, and nothing else. */
    method DeleteDocument(id: string)
      requires Valid()
      modifies this
      ensures documents == old(documents) - {id} && Valid()
      ensures clients == old(clients) && cases == old(cases) && hearings == old(hearings)
    {
      documents := documents - {id};
    }

    /** Exporting and importing the export leaves every store as it was. */
    method ExportThenImport(exportedAt: string) returns (ok: bool)
      requires Valid()
      modifies this
      ensures ok && Contents() == old(Contents())
    {
      ghost var before := Contents();
      var b := ExportAllData(exportedAt);
      ExportImportRoundTrip(b, before);
      ok := ImportAllData(ImportDataOf(b));
    }
  }
}
