/**
 * The upload component of the local store: the extension filter and the records
 * `handleFiles` saves, one per accepted file, in selection order. The generated ids, the
 * creation instant read for each file and a failure of the read or the save are parameters.
 */
module DocumentUpload {
  import opened Wrappers
  import opened Seqs
  import opened Text
  import opened Base64
  import opened LocalDb

  /** A file of the picker's selection. */
  datatype PickedFile = PickedFile(name: string, size: nat, bytes: seq<byte>)

  const Allowed: set<string> := {"doc", "docx", "pdf"}

  predicate Accepted(f: PickedFile) {
    FileExtension(f.name) in Allowed
  }

  /** No allowed extension is empty, so an accepted file is never typed 'unknown'. */
  lemma AllowedNonEmpty(e: string)
    requires e in Allowed
    ensures |e| >= 3
  {
  }

  /** The record saved for an accepted file. */
  function RecordOf(f: PickedFile, id: string, caseId: string, createdAt: string): DocRec {
    var ext := FileExtension(f.name);
    DocRec(id, caseId, f.name, if ext != "" then ext else "unknown", f.size, f.bytes, createdAt)
  }

  /**
   * The records saved for the first `n` files, `ids[i]` being the id generated for file `i`
   * and `stamps[i]` the `new Date().toISOString()` read when its record was built.
   */
  function Saved(files: seq<PickedFile>, ids: seq<string>, n: nat, caseId: string, stamps: seq<string>): seq<DocRec>
    requires n <= |files| == |ids| == |stamps|
  {
    if n == 0 then []
    else
      var prev := Saved(files, ids, n - 1, caseId, stamps);
      if Accepted(files[n - 1]) then prev + [RecordOf(files[n - 1], ids[n - 1], caseId, stamps[n - 1])] else prev
  }

  /** A rejected file adds nothing. */
  lemma SavedSkip(files: seq<PickedFile>, ids: seq<string>, i: nat, caseId: string, stamps: seq<string>)
    requires i < |files| == |ids| == |stamps| && !Accepted(files[i])
    ensures Saved(files, ids, i + 1, caseId, stamps) == Saved(files, ids, i, caseId, stamps)
  {
  }

  /** An accepted file adds its record at the end. */
  lemma SavedAppend(files: seq<PickedFile>, ids: seq<string>, i: nat, caseId: string, stamps: seq<string>)
    requires i < |files| == |ids| == |stamps| && Accepted(files[i])
    ensures Saved(files, ids, i + 1, caseId, stamps) ==
      Saved(files, ids, i, caseId, stamps) + [RecordOf(files[i], ids[i], caseId, stamps[i])]
  {
  }

  /** One record is saved per accepted file. */
  lemma {:induction false} SavedCount(files: seq<PickedFile>, ids: seq<string>, n: nat, caseId: string, stamps: seq<string>)
    requires n <= |files| == |ids| == |stamps|
    ensures |Saved(files, ids, n, caseId, stamps)| == Count(files[..n], Accepted)
  {
    if n > 0 {
      SavedCount(files, ids, n - 1, caseId, stamps);
      assert files[..n] == files[..n - 1] + [files[n - 1]];
      FilterAppend(files[..n - 1], [files[n - 1]], Accepted);
    }
  }

  /** The record of an accepted file has that file's extension as its type. */
  lemma AcceptedRecord(f: PickedFile, id: string, caseId: string, createdAt: string)
    requires Accepted(f)
    ensures RecordOf(f, id, caseId, createdAt).docType == FileExtension(f.name)
    ensures RecordOf(f, id, caseId, createdAt).docType in Allowed
  {
    AllowedNonEmpty(FileExtension(f.name));
  }

  /** A record saved for the first `n` files is that of an accepted file among them. */
  predicate SavedFrom(files: seq<PickedFile>, ids: seq<string>, n: nat, caseId: string, stamps: seq<string>, r: DocRec)
    requires n <= |files| == |ids| == |stamps|
  {
    exists i :: 0 <= i < n && Accepted(files[i]) && r == RecordOf(files[i], ids[i], caseId, stamps[i])
  }

  /**
   * Each saved record is that of an accepted file among the first `n`: it carries the
   * component's caseId, the file's name, size and bytes, and as its type the lower-cased
   * extension, which is always doc, docx or pdf.
   */
  lemma {:induction false} SavedRecords(files: seq<PickedFile>, ids: seq<string>, n: nat, caseId: string, stamps: seq<string>)
    requires n <= |files| == |ids| == |stamps|
    ensures forall r :: r in Saved(files, ids, n, caseId, stamps) ==>
      r.docType in Allowed && r.caseId == caseId && SavedFrom(files, ids, n, caseId, stamps, r)
  {
    if n > 0 {
      SavedRecords(files, ids, n - 1, caseId, stamps);
      SavedFromGrows(files, ids, n - 1, caseId, stamps);
      var f := files[n - 1];
      if Accepted(f) {
        SavedAppend(files, ids, n - 1, caseId, stamps);
        AcceptedRecord(f, ids[n - 1], caseId, stamps[n - 1]);
        assert SavedFrom(files, ids, n, caseId, stamps, RecordOf(f, ids[n - 1], caseId, stamps[n - 1]));
      } else {
        SavedSkip(files, ids, n - 1, caseId, stamps);
      }
    }
  }

  /** A record saved from the first `n` files is one saved from the first `n + 1`. */
  lemma SavedFromGrows(files: seq<PickedFile>, ids: seq<string>, n: nat, caseId: string, stamps: seq<string>)
    requires n < |files| == |ids| == |stamps|
    ensures forall r :: SavedFrom(files, ids, n, caseId, stamps, r) ==> SavedFrom(files, ids, n + 1, caseId, stamps, r)
  {
    forall r | SavedFrom(files, ids, n, caseId, stamps, r) ensures SavedFrom(files, ids, n + 1, caseId, stamps, r) {
      var i :| 0 <= i < n && Accepted(files[i]) && r == RecordOf(files[i], ids[i], caseId, stamps[i]);
      assert 0 <= i < n + 1;
    }
  }

  /** A file whose extension is not allowed is never saved. */
  lemma RejectedNeverSaved(files: seq<PickedFile>, ids: seq<string>, caseId: string, stamps: seq<string>, j: int)
    requires |files| == |ids| == |stamps| && 0 <= j < |files| && !Accepted(files[j])
    requires forall i :: 0 <= i < |ids| && i != j ==> ids[i] != ids[j]
    ensures forall r :: r in Saved(files, ids, |files|, caseId, stamps) ==> r.id != ids[j]
  {
    SavedRecords(files, ids, |files|, caseId, stamps);
  }

  /** '<count> documento(s) subido(s)'. */
  function CountMessage(count: nat): string {
    NatToString(count) + " documento(s) subido(s)"
  }

  class Uploader {
    var uploading: bool
    var message: Option<string>

    constructor ()
      ensures !uploading && message == None
    {
      uploading := false;
      message := None;
    }

    /**
     * `handleFiles`. `failAt` is the position of a file whose read or save throws, if
     * any. Returns the records saved, in saving order.
     */
    method HandleFiles(files: seq<PickedFile>, ids: seq<string>, caseId: string, stamps: seq<string>, failAt: Option<nat>)
      returns (saved: seq<DocRec>)
      requires |ids| == |stamps| == |files|
      modifies this
      ensures files == [] ==> saved == [] && uploading == old(uploading) && message == old(message)
      ensures files != [] ==>
        saved == Saved(files, ids, StopAt(files, failAt), caseId, stamps) && !uploading
        && message == Some(if StopAt(files, failAt) < |files| then "Error al subir documentos" else CountMessage(|saved|))
    {
      saved := [];
      if files == [] {
        return;
      }
      uploading := true;
      message := None;
      var failed;
      saved, failed := SaveAll(files, ids, caseId, stamps, failAt);
      if failed {
        message := Some("Error al subir documentos");
      } else {
        message := Some(CountMessage(|saved|));
      }
      uploading := false;
    }
  }

  /** Where the loop of `handleFiles` ends: at the accepted file whose save throws, or after the last file. */
  function StopAt(files: seq<PickedFile>, failAt: Option<nat>): (k: nat)
    ensures k <= |files|
    ensures k < |files| <==> failAt.Some? && failAt.value < |files| && Accepted(files[failAt.value])
  {
    if failAt.Some? && failAt.value < |files| && Accepted(files[failAt.value]) then failAt.value else |files|
  }

  /** The loop passes file `i` unless it is the accepted file whose save throws. */
  lemma StopAtStep(files: seq<PickedFile>, failAt: Option<nat>, i: nat)
    requires i < |files| && i <= StopAt(files, failAt)
    requires !Accepted(files[i]) || failAt != Some(i)
    ensures i + 1 <= StopAt(files, failAt)
  {
  }

  /**
   * The loop of `handleFiles`: skips rejected files and saves the others in order until
   * the save at `failAt` throws. `failed` tells whether it did.
   */
  method SaveAll(files: seq<PickedFile>, ids: seq<string>, caseId: string, stamps: seq<string>, failAt: Option<nat>)
    returns (saved: seq<DocRec>, failed: bool)
    requires |ids| == |stamps| == |files|
    ensures failed <==> StopAt(files, failAt) < |files|
    ensures saved == Saved(files, ids, StopAt(files, failAt), caseId, stamps)
  {
    saved := [];
    failed := false;
    var i := 0;
    while i < |files|
      invariant 0 <= i <= |files|
      invariant saved == Saved(files, ids, i, caseId, stamps)
      invariant i <= StopAt(files, failAt)
    {
      if !Accepted(files[i]) {
        SavedSkip(files, ids, i, caseId, stamps);
        StopAtStep(files, failAt, i);
        i := i + 1;
        continue;
      }
      if failAt == Some(i) {
        failed := true;
        return;
      }
      SavedAppend(files, ids, i, caseId, stamps);
      StopAtStep(files, failAt, i);
      saved := saved + [RecordOf(files[i], ids[i], caseId, stamps[i])];
      i := i + 1;
    }
  }
}
