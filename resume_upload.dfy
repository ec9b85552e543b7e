/** The resume upload page of frontend/src/app/resume-upload/page.tsx: the
    file picker's check of the chosen file, and the upload that stores the
    new resume id and moves on to the interview setup. */
module ResumeUpload {
  import opened Wrappers
  import opened ErrorHandler
  import opened Client
  import AuthStore

  /** The chosen file's name, MIME type and size in bytes. */
  datatype FileInfo = FileInfo(name: string, mimeType: string, size: nat)

  /** The data of a successful upload. */
  datatype UploadData = UploadData(resumeId: int)

  const PdfType := "application/pdf"
  /** 10 MiB, the largest size accepted. */
  const MaxSize := 10 * 1024 * 1024
  const NotPdf := "Please select a PDF file"
  const TooLarge := "File size must be less than 10MB"
  const NoFile := "Please select a file"
  const SetupPath := "/interview-setup"

  /** Why a chosen file is refused, if it is: the type is checked first,
      then the size. */
  function FileProblem(f: FileInfo): Option<string> {
    if f.mimeType != PdfType then Some(NotPdf)
    else if f.size > MaxSize then Some(TooLarge)
    else None
  }

  /** A file is accepted exactly when it is a PDF of at most 10 MiB; a file
      that is not a PDF gets the type message whatever its size; the size
      limit is inclusive. */
  lemma FileRules(f: FileInfo)
    ensures FileProblem(f).None? <==> f.mimeType == PdfType && f.size <= 10485760
    ensures f.mimeType != PdfType ==> FileProblem(f) == Some(NotPdf)
    ensures f.mimeType == PdfType && f.size > MaxSize ==> FileProblem(f) == Some(TooLarge)
    ensures FileProblem(FileInfo(f.name, PdfType, 10485760)).None?
    ensures FileProblem(FileInfo(f.name, PdfType, 10485761)) == Some(TooLarge)
  {
  }

  class ResumeUploadPage {
    var file: Option<FileInfo>
    var loading: bool
    var error: string
    var progress: int
    var navigations: seq<string>

    constructor ()
      ensures file.None? && !loading && error == "" && progress == 0 && navigations == []
    {
      file, loading, error, progress, navigations := None, false, "", 0, [];
    }

    /** `handleFileChange`: no file leaves the page as it is; a refused file
        sets the reason and keeps the previous file; an accepted file
        replaces it and clears the error. */
    method HandleFileChange(selected: Option<FileInfo>)
      modifies this
      ensures selected.None? ==> file == old(file) && error == old(error)
      ensures selected.Some? && FileProblem(selected.value).Some? ==>
        file == old(file) && error == FileProblem(selected.value).value
      ensures selected.Some? && FileProblem(selected.value).None? ==> file == selected && error == ""
      ensures loading == old(loading) && progress == old(progress) && navigations == old(navigations)
    {
      if selected.Some? {
        var f := selected.value;
        if f.mimeType != PdfType {
          error := NotPdf;
          return;
        }
        if f.size > MaxSize {
          error := TooLarge;
          return;
        }
        file := selected;
        error := "";
      }
    }

    /** `handleUpload`: without a file, an error and no request; otherwise
        the file is posted, a success stores the resume id and moves to the
        setup page, a failure keeps the error text, and loading and progress
        are reset whatever happened. */
    method HandleUpload(store: AuthStore.SessionStore, reply: Response<UploadData>) returns (requests: seq<Request>)
      modifies this, store
      ensures old(file).None? ==>
        requests == [] && error == NoFile && store.items == old(store.items)
        && navigations == old(navigations) && loading == old(loading) && progress == old(progress)
      ensures old(file).Some? ==>
        && requests == [UploadRequest(old(file).value.name)] && !loading && progress == 0
        && (reply.Success? ==>
              && error == ""
              && store.items == (if store.hasWindow
                                 then old(store.items)[AuthStore.ResumeIdKey := Strings.IntToString(reply.data.resumeId)]
                                 else old(store.items))
              && navigations == old(navigations) + [SetupPath])
        && (reply.Failure? ==>
              error == GetErrorMessage(reply.error) && store.items == old(store.items)
              && navigations == old(navigations))
      ensures file == old(file)
    {
      if file.None? {
        error := NoFile;
        return [];
      }
      loading := true;
      error := "";
      requests := [UploadRequest(file.value.name)];
      match reply {
        case Success(data) =>
          store.SetResumeId(data.resumeId);
          navigations := navigations + [SetupPath];
        case Failure(err) =>
          error := GetErrorMessage(err);
      }
      loading := false;
      progress := 0;
    }
  }
}
