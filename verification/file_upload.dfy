/** File uploads (src/file-upload/services/file-upload.service.ts): the validation of
    an uploaded image and the control flow of single and multiple uploads. The upload
    directory is a log of the files written; the generated file names, which come
    from the clock and a random number, are given to the methods as parameters. */
module FileUpload {
  import opened Common

  /** The parts of a multipart file the service looks at. */
  datatype UploadedFile = UploadedFile(mimetype: string, size: nat, originalName: string)

  const AllowedMimeTypes: seq<string> := ["image/jpeg", "image/jpg", "image/png", "image/gif", "image/webp"]

  /** 10 MiB. */
  const MaxSize: nat := 10 * 1024 * 1024

  /** Why `validateFile` refuses a file: the type is checked before the size. */
  datatype Refusal = InvalidType | TooLarge

  /** `validateFile`: a refusal for a type outside the five image types, else for a
      size above 10 MiB, else none. */
  function ValidateFile(f: UploadedFile): (r: Option<Refusal>)
    ensures r.None? <==> f.mimetype in AllowedMimeTypes && f.size <= MaxSize
    ensures r == Some(InvalidType) <==> f.mimetype !in AllowedMimeTypes
  {
    if f.mimetype !in AllowedMimeTypes then Some(InvalidType)
    else if f.size > MaxSize then Some(TooLarge)
    else None
  }

  /** Exactly 10 MiB passes and one byte more does not. */
  lemma SizeBoundary(mimetype: string, name: string)
    requires mimetype in AllowedMimeTypes
    ensures ValidateFile(UploadedFile(mimetype, 10485760, name)).None?
    ensures ValidateFile(UploadedFile(mimetype, 10485761, name)) == Some(TooLarge)
  {
  }

  /** The URL of a stored file. */
  function UrlOf(fileName: string): (r: string)
    ensures |r| == 9 + |fileName| && r[..9] == "/uploads/" && r[9..] == fileName
  {
    "/uploads/" + fileName
  }

  /** The first file that fails validation, if any. */
  function FirstInvalid(files: seq<UploadedFile>): (r: Option<nat>)
    ensures r.Some? ==> r.value < |files| && ValidateFile(files[r.value]).Some?
                        && forall k :: 0 <= k < r.value ==> ValidateFile(files[k]).None?
    ensures r.None? ==> forall k :: 0 <= k < |files| ==> ValidateFile(files[k]).None?
  {
    if files == [] then None
    else if ValidateFile(files[0]).Some? then Some(0)
    else
      var rest := FirstInvalid(files[1..]);
      if rest.None? then None else Some(rest.value + 1)
  }

  /** The `uploads` directory: the files written, in order, with their names. */
  class UploadDir {
    var written: seq<(string, UploadedFile)>

    constructor()
      ensures written == []
    {
      written := [];
    }

    /** `uploadSingle`: BadRequest without a file or for a refused one, before any
        write; otherwise the file is written under `fileName` and its URL returned. */
    method UploadSingle(file: Option<UploadedFile>, fileName: string) returns (r: Result<string>)
      modifies this
      ensures file.None? || ValidateFile(file.value).Some? ==> r == Err(BadRequest) && written == old(written)
      ensures file.Some? && ValidateFile(file.value).None? ==>
        r == Ok(UrlOf(fileName)) && written == old(written) + [(fileName, file.value)]
    {
      if file.None? {
        return Err(BadRequest);
      }
      if ValidateFile(file.value).Some? {
        return Err(BadRequest);
      }
      written := written + [(fileName, file.value)];
      return Ok(UrlOf(fileName));
    }

    /** `uploadMultiple`: BadRequest without files, before any write. Otherwise the
        files are validated and written one by one: when all pass, one URL per file
        comes back, in order; when file k is refused, files 0 .. k-1 have already
        been written. */
    method UploadMultiple(files: Option<seq<UploadedFile>>, fileNames: seq<string>) returns (r: Result<seq<string>>)
      requires files.Some? ==> |fileNames| >= |files.value|
      modifies this
      ensures files.None? || files.value == [] ==> r == Err(BadRequest) && written == old(written)
      ensures files.Some? && files.value != [] && FirstInvalid(files.value).Some? ==>
        var k := FirstInvalid(files.value).value;
        && r == Err(BadRequest)
        && |written| == |old(written)| + k
        && written[..|old(written)|] == old(written)
        && forall i :: 0 <= i < k ==> written[|old(written)| + i] == (fileNames[i], files.value[i])
      ensures files.Some? && files.value != [] && FirstInvalid(files.value).None? ==>
        && r.Ok? && |r.value| == |files.value|
        && (forall i :: 0 <= i < |files.value| ==> r.value[i] == UrlOf(fileNames[i]))
        && |written| == |old(written)| + |files.value|
        && written[..|old(written)|] == old(written)
        && forall i :: 0 <= i < |files.value| ==> written[|old(written)| + i] == (fileNames[i], files.value[i])
    {
      if files.None? || files.value == [] {
        return Err(BadRequest);
      }
      var fs := files.value;
      var urls: seq<string> := [];
      var i := 0;
      while i < |fs|
        invariant 0 <= i <= |fs|
        invariant forall k :: 0 <= k < i ==> ValidateFile(fs[k]).None?
        invariant |urls| == i && forall k :: 0 <= k < i ==> urls[k] == UrlOf(fileNames[k])
        invariant |written| == |old(written)| + i && written[..|old(written)|] == old(written)
        invariant forall k :: 0 <= k < i ==> written[|old(written)| + k] == (fileNames[k], fs[k])
      {
        if ValidateFile(fs[i]).Some? {
          assert FirstInvalid(fs) == Some(i) by {
            FirstInvalidAt(fs, i);
          }
          return Err(BadRequest);
        }
        written := written + [(fileNames[i], fs[i])];
        urls := urls + [UrlOf(fileNames[i])];
        i := i + 1;
      }
      return Ok(urls);
    }
  }

  /** The first refused file is the one every earlier file passes before. */
  lemma {:induction false} FirstInvalidAt(files: seq<UploadedFile>, i: nat)
    requires i < |files| && ValidateFile(files[i]).Some?
    requires forall k :: 0 <= k < i ==> ValidateFile(files[k]).None?
    ensures FirstInvalid(files) == Some(i)
  {
    if i > 0 {
      FirstInvalidAt(files[1..], i - 1);
    }
  }
}
