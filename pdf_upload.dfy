/**
 * The upload panel: the list of files the user has dropped or picked, each
 * entered as "processing" with the period read from its name, later marked
 * "completed", and removable by id.
 *
 * The clock and the random source that make an entry's id, and the locale
 * date it shows, are not modelled: each file arrives with a `Stamp` holding
 * the id and date it would get. The two-second timer that completes an
 * entry is the separate method `CompleteProcessing`, which the environment
 * calls with the entry's id some time after the upload.
 */
module PdfUpload {
  import opened Wrappers
  import opened Lists
  import opened TimePeriod

  datatype Status = Processing | Completed | Error

  datatype UploadedFile = UploadedFile(
    id: string,
    name: string,
    size: int,
    timePeriod: string,
    uploadDate: string,
    status: Status)

  /** What the browser reports for a chosen file. */
  datatype FileInfo = FileInfo(name: string, size: int, mimeType: string)

  /** The id and the upload date a file is given when it is entered. */
  datatype Stamp = Stamp(id: string, uploadDate: string)

  const PdfMimeType := "application/pdf"

  function IdOf(f: UploadedFile): string {
    f.id
  }

  /** The entry made for an accepted file. */
  function NewUpload(f: FileInfo, st: Stamp): UploadedFile {
    UploadedFile(st.id, f.name, f.size, ExtractTimePeriod(f.name), st.uploadDate, Processing)
  }

  /** The entries made for a batch: one per PDF file, in the order of the batch. */
  function Admitted(files: seq<FileInfo>, stamps: seq<Stamp>): seq<UploadedFile>
    requires |files| == |stamps|
  {
    if files == [] then []
    else
      var n := |files| - 1;
      Admitted(files[..n], stamps[..n]) + (if files[n].mimeType == PdfMimeType then [NewUpload(files[n], stamps[n])] else [])
  }

  /** Each entry of a batch comes from a PDF file of the batch, with its period and status "processing". */
  lemma {:induction false} AdmittedFromPdfs(files: seq<FileInfo>, stamps: seq<Stamp>)
    requires |files| == |stamps|
    ensures forall u :: u in Admitted(files, stamps) ==>
              u.status == Processing && u.timePeriod == ExtractTimePeriod(u.name) &&
              exists i :: 0 <= i < |files| && files[i].mimeType == PdfMimeType && u == NewUpload(files[i], stamps[i])
  {
    if files != [] {
      var n := |files| - 1;
      AdmittedFromPdfs(files[..n], stamps[..n]);
      forall u | u in Admitted(files, stamps)
        ensures exists i :: 0 <= i < |files| && files[i].mimeType == PdfMimeType && u == NewUpload(files[i], stamps[i])
      {
        if u in Admitted(files[..n], stamps[..n]) {
          var i :| 0 <= i < n && files[..n][i].mimeType == PdfMimeType && u == NewUpload(files[..n][i], stamps[..n][i]);
          assert files[i] == files[..n][i] && stamps[i] == stamps[..n][i];
        } else {
          assert u == NewUpload(files[n], stamps[n]);
        }
      }
    }
  }

  /** Every PDF file of a batch gets its entry. */
  lemma {:induction false} AdmittedKeepsPdfs(files: seq<FileInfo>, stamps: seq<Stamp>)
    requires |files| == |stamps|
    ensures forall i :: 0 <= i < |files| && files[i].mimeType == PdfMimeType ==>
              NewUpload(files[i], stamps[i]) in Admitted(files, stamps)
  {
    if files != [] {
      var n := |files| - 1;
      AdmittedKeepsPdfs(files[..n], stamps[..n]);
      forall i | 0 <= i < n && files[i].mimeType == PdfMimeType
        ensures NewUpload(files[i], stamps[i]) in Admitted(files, stamps)
      {
        assert files[..n][i] == files[i] && stamps[..n][i] == stamps[i];
      }
    }
  }

  /** A batch without any PDF file adds nothing. */
  lemma {:induction false} AdmittedNoPdf(files: seq<FileInfo>, stamps: seq<Stamp>)
    requires |files| == |stamps|
    requires forall i :: 0 <= i < |files| ==> files[i].mimeType != PdfMimeType
    ensures Admitted(files, stamps) == []
  {
    if files != [] {
      var n := |files| - 1;
      assert forall i :: 0 <= i < n ==> files[..n][i] == files[i];
      AdmittedNoPdf(files[..n], stamps[..n]);
    }
  }

  /** The entries of two batches in a row are those of the first followed by those of the second. */
  lemma {:induction false} AdmittedConcat(a: seq<FileInfo>, sa: seq<Stamp>, b: seq<FileInfo>, sb: seq<Stamp>)
    requires |a| == |sa| && |b| == |sb|
    ensures Admitted(a + b, sa + sb) == Admitted(a, sa) + Admitted(b, sb)
    decreases |b|
  {
    if b == [] {
      assert a + b == a && sa + sb == sa;
    } else {
      var n := |b| - 1;
      assert (a + b)[..|a| + n] == a + b[..n];
      assert (sa + sb)[..|a| + n] == sa + sb[..n];
      assert (a + b)[|a| + n] == b[n] && (sa + sb)[|a| + n] == sb[n];
      AdmittedConcat(a, sa, b[..n], sb[..n]);
    }
  }

  /** Marks one entry completed when it has the id; every other field stays as it was. */
  function CompleteIf(f: UploadedFile, id: string): UploadedFile {
    if f.id == id then f.(status := Completed) else f
  }

  /** The list after the timer for `id` fires: entries with that id are completed, in place. */
  function CompletedById(files: seq<UploadedFile>, id: string): (r: seq<UploadedFile>)
    ensures |r| == |files|
  {
    if files == [] then [] else [CompleteIf(files[0], id)] + CompletedById(files[1..], id)
  }

  /** Completion changes only the status of the entries with the id, which become "completed". */
  lemma {:induction false} CompletedOnlyChangesStatus(files: seq<UploadedFile>, id: string)
    ensures forall i :: 0 <= i < |files| ==>
              CompletedById(files, id)[i] == files[i].(status := CompletedById(files, id)[i].status)
    ensures forall i :: 0 <= i < |files| && files[i].id == id ==> CompletedById(files, id)[i].status == Completed
    ensures forall i :: 0 <= i < |files| && files[i].id != id ==> CompletedById(files, id)[i] == files[i]
  {
    if files != [] {
      CompletedOnlyChangesStatus(files[1..], id);
      var r := CompletedById(files, id);
      assert forall i :: 1 <= i < |files| ==> r[i] == CompletedById(files[1..], id)[i - 1] && files[i] == files[1..][i - 1];
    }
  }

  /** Completing twice is the same as completing once. */
  lemma {:induction false} CompletedIdempotent(files: seq<UploadedFile>, id: string)
    ensures CompletedById(CompletedById(files, id), id) == CompletedById(files, id)
  {
    if files != [] {
      CompletedIdempotent(files[1..], id);
      assert CompletedById(files, id)[1..] == CompletedById(files[1..], id);
    }
  }

  /** Completion and removal commute, so a timer that fires after a removal finds nothing of the removed entry. */
  lemma {:induction false} CompleteRemoveCommute(files: seq<UploadedFile>, done: string, gone: string)
    ensures RemoveAll(CompletedById(files, done), gone, IdOf) == CompletedById(RemoveAll(files, gone, IdOf), done)
  {
    if files != [] {
      CompleteRemoveCommute(files[1..], done, gone);
      var c := CompletedById(files, done);
      assert c == [c[0]] + c[1..];
      assert c[1..] == CompletedById(files[1..], done);
      RemoveAllConcat([c[0]], c[1..], gone, IdOf);
      assert files == [files[0]] + files[1..];
      RemoveAllConcat([files[0]], files[1..], gone, IdOf);
      var kept := RemoveAll([files[0]], gone, IdOf);
      CompletedConcat(kept, RemoveAll(files[1..], gone, IdOf), done);
      if files[0].id == gone {
        assert RemoveAll([c[0]], gone, IdOf) == [] && kept == [];
      } else {
        assert RemoveAll([c[0]], gone, IdOf) == [c[0]] && kept == [files[0]];
        assert CompletedById([files[0]], done) == [c[0]];
      }
    }
  }

  lemma {:induction false} CompletedConcat(a: seq<UploadedFile>, b: seq<UploadedFile>, id: string)
    ensures CompletedById(a + b, id) == CompletedById(a, id) + CompletedById(b, id)
  {
    if a == [] {
      assert a + b == b;
    } else {
      assert (a + b)[1..] == a[1..] + b;
      CompletedConcat(a[1..], b, id);
    }
  }

  /** Completing an id that was removed changes nothing. */
  lemma {:induction false} CompleteAfterRemoveIsNoop(files: seq<UploadedFile>, id: string)
    ensures CompletedById(RemoveAll(files, id, IdOf), id) == RemoveAll(files, id, IdOf)
  {
    CompletedAbsent(RemoveAll(files, id, IdOf), id);
  }

  lemma {:induction false} CompletedAbsent(files: seq<UploadedFile>, id: string)
    requires forall f :: f in files ==> f.id != id
    ensures CompletedById(files, id) == files
  {
    if files != [] {
      assert files[0] in files;
      assert forall f :: f in files[1..] ==> f in files;
      CompletedAbsent(files[1..], id);
    }
  }

  /** No entry of the panel is ever in the error state. */
  predicate NoErrors(files: seq<UploadedFile>) {
    forall f :: f in files ==> f.status != Error
  }

  lemma {:induction false} CompletedKeepsNoErrors(files: seq<UploadedFile>, id: string)
    requires NoErrors(files)
    ensures NoErrors(CompletedById(files, id))
  {
    CompletedOnlyChangesStatus(files, id);
    var r := CompletedById(files, id);
    forall f | f in r ensures f.status != Error {
      var i :| 0 <= i < |r| && r[i] == f;
      assert files[i] in files;
    }
  }

  /** The panel: its list of entries, in the order they were added. */
  class UploadPanel {
    var uploadedFiles: seq<UploadedFile>

    /** The panel never puts an entry in the error state. */
    predicate Valid()
      reads this
    {
      NoErrors(uploadedFiles)
    }

    constructor()
      ensures uploadedFiles == [] && Valid()
    {
      uploadedFiles := [];
    }

    /**
     * `handleFileUpload`: no list, no change; otherwise each PDF file of the
     * batch, in turn, is appended as a new "processing" entry.
     */
    method HandleFileUpload(files: Option<seq<FileInfo>>, stamps: seq<Stamp>)
      requires files.Some? ==> |stamps| == |files.value|
      requires Valid()
      modifies this
      ensures files.None? ==> uploadedFiles == old(uploadedFiles)
      ensures files.Some? ==> uploadedFiles == old(uploadedFiles) + Admitted(files.value, stamps)
      ensures Valid()
    {
      if files.None? {
        return;
      }
      var fs := files.value;
      for i := 0 to |fs|
        invariant uploadedFiles == old(uploadedFiles) + Admitted(fs[..i], stamps[..i])
        invariant Valid()
      {
        assert fs[..i + 1][..i] == fs[..i] && stamps[..i + 1][..i] == stamps[..i];
        if fs[i].mimeType == PdfMimeType {
          uploadedFiles := uploadedFiles + [NewUpload(fs[i], stamps[i])];
        }
      }
      assert fs[..|fs|] == fs && stamps[..|fs|] == stamps;
    }

    /** The processing timer of entry `id` fires: that entry becomes "completed". */
    method CompleteProcessing(id: string)
      requires Valid()
      modifies this
      ensures uploadedFiles == CompletedById(old(uploadedFiles), id)
      ensures Valid()
    {
      CompletedKeepsNoErrors(uploadedFiles, id);
      uploadedFiles := CompletedById(uploadedFiles, id);
    }

    /** `removeFile`: every entry with the id goes; the others keep their order. */
    method RemoveFile(id: string)
      requires Valid()
      modifies this
      ensures uploadedFiles == RemoveAll(old(uploadedFiles), id, IdOf)
      ensures Valid()
    {
      uploadedFiles := RemoveAll(uploadedFiles, id, IdOf);
    }
  }

  /** Removing a freshly added entry restores the list it was added to. */
  lemma {:induction false} RemoveUndoesUpload(files: seq<UploadedFile>, f: FileInfo, st: Stamp)
    requires forall u :: u in files ==> u.id != st.id
    ensures RemoveAll(files + [NewUpload(f, st)], st.id, IdOf) == files
  {
    RemoveAllUndoesAppend(files, NewUpload(f, st), IdOf);
  }
}
