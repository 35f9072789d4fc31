/**
 * Input validation (app/lib/utils/validation.ts): MIME-type whitelists and
 * size limits for uploaded audio and image files, and the split of a batch
 * of images into accepted files and per-file errors.
 */
module Validation {
  import opened Wrappers
  import opened Types

  const MaxAudioFileSize: nat := 500 * 1024 * 1024
  const MaxImageFileSize: nat := 20 * 1024 * 1024

  /** `file.type || "unknown"`. */
  function TypeLabel(f: FileRef): string {
    if f.mimeType == "" then "unknown" else f.mimeType
  }

  /**
   * `validateAudioFile`. The size text is the caller-supplied `mb`, standing
   * for `(size / 1024 / 1024).toFixed(1)`.
   */
  function ValidateAudioFile(f: FileRef, mb: real -> string): (r: ValidationResult)
    ensures r.valid <==> r.error.None?
    ensures r.valid <==> f.mimeType in SupportedAudioFormats && f.size <= MaxAudioFileSize
    ensures f.mimeType !in SupportedAudioFormats ==>
      r.error == Some(AppError(InvalidFileType, "Invalid audio format: " + TypeLabel(f),
                               Some("Supported formats: MP3, WAV, AAC, M4A"), true))
    ensures f.mimeType in SupportedAudioFormats && f.size > MaxAudioFileSize ==>
      r.error == Some(AppError(FileTooLarge,
                               "Audio file is too large: " + mb(f.size as real / 1024.0 / 1024.0) + "MB",
                               Some("Maximum allowed size is 500MB"), true))
  {
    if f.mimeType !in SupportedAudioFormats then
      ValidationResult(false, Some(AppError(InvalidFileType, "Invalid audio format: " + TypeLabel(f),
                                            Some("Supported formats: MP3, WAV, AAC, M4A"), true)))
    else if f.size > MaxAudioFileSize then
      ValidationResult(false, Some(AppError(FileTooLarge,
                                            "Audio file is too large: " + mb(f.size as real / 1024.0 / 1024.0) + "MB",
                                            Some("Maximum allowed size is 500MB"), true)))
    else ValidationResult(true, None)
  }

  /** `validateImageFile`: the same checks with the image whitelist and a 20 MiB limit. */
  function ValidateImageFile(f: FileRef, mb: real -> string): (r: ValidationResult)
    ensures r.valid <==> r.error.None?
    ensures r.valid <==> f.mimeType in SupportedImageFormats && f.size <= MaxImageFileSize
    ensures f.mimeType !in SupportedImageFormats ==>
      r.error == Some(AppError(InvalidFileType, "Invalid image format: " + TypeLabel(f),
                               Some("Supported formats: JPEG, PNG, WebP"), true))
    ensures f.mimeType in SupportedImageFormats && f.size > MaxImageFileSize ==>
      r.error == Some(AppError(FileTooLarge,
                               "Image file is too large: " + mb(f.size as real / 1024.0 / 1024.0) + "MB",
                               Some("Maximum allowed size per image is 20MB"), true))
  {
    if f.mimeType !in SupportedImageFormats then
      ValidationResult(false, Some(AppError(InvalidFileType, "Invalid image format: " + TypeLabel(f),
                                            Some("Supported formats: JPEG, PNG, WebP"), true)))
    else if f.size > MaxImageFileSize then
      ValidationResult(false, Some(AppError(FileTooLarge,
                                            "Image file is too large: " + mb(f.size as real / 1024.0 / 1024.0) + "MB",
                                            Some("Maximum allowed size per image is 20MB"), true)))
    else ValidationResult(true, None)
  }

  /** Every error the validators produce is recoverable; the type is checked before the size. */
  lemma ValidationErrorsRecoverable(f: FileRef, mb: real -> string)
    ensures ValidateAudioFile(f, mb).error.Some? ==> ValidateAudioFile(f, mb).error.value.recoverable
    ensures ValidateImageFile(f, mb).error.Some? ==> ValidateImageFile(f, mb).error.value.recoverable
    ensures f.mimeType !in SupportedAudioFormats ==> ValidateAudioFile(f, mb).error.value.code == InvalidFileType
    ensures f.mimeType !in SupportedImageFormats ==> ValidateImageFile(f, mb).error.value.code == InvalidFileType
  {
  }

  /** The limits are inclusive: exactly 500 MiB of audio and 20 MiB of image pass. */
  lemma SizeLimitsInclusive(f: FileRef, mb: real -> string)
    requires f.mimeType == "audio/mpeg" && f.size == 500 * 1024 * 1024
    ensures ValidateAudioFile(f, mb).valid
    ensures !ValidateAudioFile(f.(size := f.size + 1), mb).valid
    ensures ValidateImageFile(f.(mimeType := "image/png", size := 20 * 1024 * 1024), mb).valid
    ensures !ValidateImageFile(f.(mimeType := "image/png", size := 20 * 1024 * 1024 + 1), mb).valid
  {
  }

  datatype FileError = FileError(file: FileRef, error: AppError)

  datatype BatchResult = BatchResult(valid: bool, validFiles: seq<FileRef>, errors: seq<FileError>)

  /** The files the image validator accepts, in input order. */
  function Accepted(files: seq<FileRef>, mb: real -> string): seq<FileRef>
  {
    if |files| == 0 then []
    else Accepted(files[..|files| - 1], mb)
         + (if ValidateImageFile(files[|files| - 1], mb).valid then [files[|files| - 1]] else [])
  }

  /** The rejected files with their errors, in input order. */
  function Rejected(files: seq<FileRef>, mb: real -> string): seq<FileError>
  {
    if |files| == 0 then []
    else
      var f := files[|files| - 1];
      var v := ValidateImageFile(f, mb);
      Rejected(files[..|files| - 1], mb) + (if v.valid then [] else [FileError(f, v.error.value)])
  }

  function FilesOf(es: seq<FileError>): seq<FileRef> {
    if |es| == 0 then [] else FilesOf(es[..|es| - 1]) + [es[|es| - 1].file]
  }

  /** The files of the rejected entries, in input order. */
  lemma RejectedFilesStep(files: seq<FileRef>, mb: real -> string)
    requires |files| > 0
    ensures var f := files[|files| - 1];
      FilesOf(Rejected(files, mb))
        == FilesOf(Rejected(files[..|files| - 1], mb)) + (if ValidateImageFile(f, mb).valid then [] else [f])
  {
    var f := files[|files| - 1];
    var v := ValidateImageFile(f, mb);
    var rp := Rejected(files[..|files| - 1], mb);
    if !v.valid {
      var e := FileError(f, v.error.value);
      assert Rejected(files, mb) == rp + [e];
      assert (rp + [e])[..|rp|] == rp;
      assert FilesOf(rp + [e]) == FilesOf(rp) + [f];
    } else {
      assert Rejected(files, mb) == rp;
    }
  }

  lemma MultisetSnoc<T>(s: seq<T>)
    requires |s| > 0
    ensures multiset(s) == multiset(s[..|s| - 1]) + multiset{s[|s| - 1]}
  {
    assert s == s[..|s| - 1] + [s[|s| - 1]];
  }

  /** Each input file is either accepted or rejected, and none is lost or duplicated. */
  lemma {:induction false} PartitionCounts(files: seq<FileRef>, mb: real -> string)
    ensures multiset(Accepted(files, mb)) + multiset(FilesOf(Rejected(files, mb))) == multiset(files)
    decreases |files|
  {
    if |files| > 0 {
      var prefix := files[..|files| - 1];
      var f := files[|files| - 1];
      PartitionCounts(prefix, mb);
      RejectedFilesStep(files, mb);
      MultisetSnoc(files);
      var acc := Accepted(prefix, mb);
      var rej := FilesOf(Rejected(prefix, mb));
      var ok := ValidateImageFile(f, mb).valid;
      assert Accepted(files, mb) == acc + (if ok then [f] else []);
      assert FilesOf(Rejected(files, mb)) == rej + (if ok then [] else [f]);
      if ok {
        assert multiset(acc + [f]) == multiset(acc) + multiset{f};
      } else {
        assert multiset(rej + [f]) == multiset(rej) + multiset{f};
      }
    }
  }

  lemma {:induction false} AcceptedAreValid(files: seq<FileRef>, mb: real -> string)
    ensures forall i :: 0 <= i < |Accepted(files, mb)| ==> ValidateImageFile(Accepted(files, mb)[i], mb).valid
    decreases |files|
  {
    if |files| > 0 {
      AcceptedAreValid(files[..|files| - 1], mb);
    }
  }

  lemma {:induction false} RejectedCarryErrors(files: seq<FileRef>, mb: real -> string)
    ensures forall i :: 0 <= i < |Rejected(files, mb)| ==>
      !ValidateImageFile(Rejected(files, mb)[i].file, mb).valid
      && Some(Rejected(files, mb)[i].error) == ValidateImageFile(Rejected(files, mb)[i].file, mb).error
    decreases |files|
  {
    if |files| > 0 {
      RejectedCarryErrors(files[..|files| - 1], mb);
    }
  }

  /**
   * `validateImageFiles`: each file lands in `validFiles` or in `errors`
   * (never both), each list keeps input order, and the batch is valid when
   * no file was rejected.
   */
  method ValidateImageFiles(files: seq<FileRef>, mb: real -> string) returns (r: BatchResult)
    ensures r.validFiles == Accepted(files, mb)
    ensures r.errors == Rejected(files, mb)
    ensures r.valid <==> |r.errors| == 0
    ensures multiset(r.validFiles) + multiset(FilesOf(r.errors)) == multiset(files)
    ensures forall i :: 0 <= i < |r.validFiles| ==> ValidateImageFile(r.validFiles[i], mb).valid
    ensures forall i :: 0 <= i < |r.errors| ==>
      !ValidateImageFile(r.errors[i].file, mb).valid
      && Some(r.errors[i].error) == ValidateImageFile(r.errors[i].file, mb).error
  {
    var validFiles: seq<FileRef> := [];
    var errors: seq<FileError> := [];
    var i := 0;
    while i < |files|
      invariant 0 <= i <= |files|
      invariant validFiles == Accepted(files[..i], mb)
      invariant errors == Rejected(files[..i], mb)
    {
      assert files[..i + 1][..i] == files[..i];
      var result := ValidateImageFile(files[i], mb);
      if result.valid {
        validFiles := validFiles + [files[i]];
      } else if result.error.Some? {
        errors := errors + [FileError(files[i], result.error.value)];
      }
      i := i + 1;
    }
    assert files[..|files|] == files;
    PartitionCounts(files, mb);
    AcceptedAreValid(files, mb);
    RejectedCarryErrors(files, mb);
    r := BatchResult(|errors| == 0, validFiles, errors);
  }
}
