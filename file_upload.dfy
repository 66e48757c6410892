/** The file-upload widget: a file is checked against the enabled MIME
    types and the size limit, a batch is split into accepted files and
    error entries, and a file can be removed with its progress entry. The
    simulated upload progress timer is not modelled. */
module FileUpload {
  import opened Wrappers
  import opened Strings
  import opened Seqs

  /** A selected file; `size` in bytes. */
  datatype File = File(name: string, mimeType: string, size: int)

  datatype UploadError = UploadError(file: string, error: string)

  /** The widget's props: the size limit in megabytes and the enabled
      categories. */
  datatype Policy = Policy(maxSize: nat, image: bool, video: bool, audio: bool)

  const DefaultPolicy: Policy := Policy(100, true, true, true)

  /** The `allowedTypes` prop; None stands for a key left out (`undefined`). */
  datatype AllowedTypes = AllowedTypes(image: Option<bool>, video: Option<bool>, audio: Option<bool>)

  const ImageMimeTypes: seq<string> := ["image/jpeg", "image/png", "image/gif", "image/webp"]
  const VideoMimeTypes: seq<string> := ["video/mp4", "video/webm", "video/quicktime"]
  const AudioMimeTypes: seq<string> := ["audio/mpeg", "audio/wav", "audio/ogg"]

  /** `validTypes`: the MIME types of the enabled categories. */
  function ValidTypes(p: Policy): (r: seq<string>)
    ensures forall t :: t in r <==>
      (p.image && t in ImageMimeTypes) || (p.video && t in VideoMimeTypes) || (p.audio && t in AudioMimeTypes)
  {
    (if p.image then ImageMimeTypes else []) + (if p.video then VideoMimeTypes else [])
    + (if p.audio then AudioMimeTypes else [])
  }

  const TypeError: string := "File type not supported"

  function SizeError(maxSize: nat): string
  {
    "File size too large (max " + NatToString(maxSize) + "MB)"
  }

  /** The byte limit, `maxSize * 1024 * 1024`. */
  function Limit(p: Policy): nat
  {
    p.maxSize * 1024 * 1024
  }

  /** `validateFile`: None when the file is accepted. The type is checked
      before the size. */
  function ValidateFile(f: File, p: Policy): (r: Option<string>)
    ensures r.None? <==> f.mimeType in ValidTypes(p) && f.size <= Limit(p)
    ensures f.mimeType !in ValidTypes(p) ==> r == Some(TypeError)
    ensures f.mimeType in ValidTypes(p) && f.size > Limit(p) ==> r == Some(SizeError(p.maxSize))
  {
    if f.mimeType !in ValidTypes(p) then Some(TypeError)
    else if f.size > Limit(p) then Some(SizeError(p.maxSize))
    else None
  }

  /** The acceptance test as a predicate value. */
  function AcceptedBy(p: Policy): File -> bool
  {
    f => ValidateFile(f, p).None?
  }

  /** The accepted files of a batch, in order. */
  function Accepted(fs: seq<File>, p: Policy): (r: seq<File>)
    ensures Subseq(r, fs)
    ensures forall f :: f in r <==> f in fs && ValidateFile(f, p).None?
  {
    FilterSubseq(fs, AcceptedBy(p));
    forall f ensures f in Filter(fs, AcceptedBy(p)) <==> f in fs && AcceptedBy(p)(f) {
      FilterMembership(fs, AcceptedBy(p), f);
    }
    Filter(fs, AcceptedBy(p))
  }

  /** One more file: appended to the accepted ones exactly when it passes. */
  lemma AcceptedSnoc(fs: seq<File>, f: File, p: Policy)
    ensures Accepted(fs + [f], p) == Accepted(fs, p) + (if ValidateFile(f, p).None? then [f] else [])
  {
    FilterAppend(fs, [f], AcceptedBy(p));
    assert [f][1..] == [];
  }

  /** The error entries of a batch, one per rejected file, in order. */
  function Errors(fs: seq<File>, p: Policy): (r: seq<UploadError>)
    ensures forall e :: e in r ==> exists f :: f in fs && f.name == e.file && ValidateFile(f, p) == Some(e.error)
  {
    if fs == [] then []
    else
      var init := Errors(fs[..|fs| - 1], p);
      var last := fs[|fs| - 1];
      assert forall f :: f in fs[..|fs| - 1] ==> f in fs;
      var e := ValidateFile(last, p);
      if e.Some? then init + [UploadError(last.name, e.value)] else init
  }

  /** One more file: an error entry is appended exactly when it fails. */
  lemma ErrorsSnoc(fs: seq<File>, f: File, p: Policy)
    ensures Errors(fs + [f], p) ==
      Errors(fs, p) + (if ValidateFile(f, p).Some? then [UploadError(f.name, ValidateFile(f, p).value)] else [])
  {
    assert (fs + [f])[..|fs|] == fs;
  }

  /** Every file of a batch is accepted or leaves exactly one error entry. */
  lemma {:induction false} BatchIsPartitioned(fs: seq<File>, p: Policy)
    ensures |Accepted(fs, p)| + |Errors(fs, p)| == |fs|
  {
    if fs != [] {
      var init := fs[..|fs| - 1];
      BatchIsPartitioned(init, p);
      assert fs == init + [fs[|fs| - 1]];
      AcceptedSnoc(init, fs[|fs| - 1], p);
    }
  }

  /** The progress map after every accepted file's entry is set to 0. */
  function StartProgress(progress: map<string, int>, accepted: seq<File>): (r: map<string, int>)
    ensures r.Keys == progress.Keys + set f | f in accepted :: f.name
    ensures forall f :: f in accepted ==> r[f.name] == 0
    ensures forall k :: k in progress && (forall f :: f in accepted ==> f.name != k) ==> r[k] == progress[k]
  {
    if accepted == [] then progress
    else
      var init := accepted[..|accepted| - 1];
      var last := accepted[|accepted| - 1];
      assert accepted == init + [last];
      StartProgress(progress, init)[last.name := 0]
  }

  /** The files left after removing every file with the given name. */
  function WithoutName(fs: seq<File>, name: string): (r: seq<File>)
    ensures Subseq(r, fs)
    ensures forall f :: f in r <==> f in fs && f.name != name
  {
    var keep := (f: File) => f.name != name;
    FilterSubseq(fs, keep);
    forall f ensures f in Filter(fs, keep) <==> f in fs && keep(f) {
      FilterMembership(fs, keep, f);
    }
    Filter(fs, keep)
  }

  /** The `filter` of `processFiles`: each file goes to the accepted list
      or leaves an error entry. */
  method Partition(newFiles: seq<File>, p: Policy) returns (validFiles: seq<File>, newErrors: seq<UploadError>)
    ensures validFiles == Accepted(newFiles, p)
    ensures newErrors == Errors(newFiles, p)
  {
    newErrors := [];
    validFiles := [];
    for i := 0 to |newFiles|
      invariant newErrors == Errors(newFiles[..i], p)
      invariant validFiles == Accepted(newFiles[..i], p)
    {
      TakeOneMore(newFiles, i);
      AcceptedSnoc(newFiles[..i], newFiles[i], p);
      ErrorsSnoc(newFiles[..i], newFiles[i], p);
      var error := ValidateFile(newFiles[i], p);
      if error.Some? {
        newErrors := newErrors + [UploadError(newFiles[i].name, error.value)];
      } else {
        validFiles := validFiles + [newFiles[i]];
      }
    }
    assert newFiles[..|newFiles|] == newFiles;
  }

  class Uploader {
    const policy: Policy
    var files: seq<File>
    var uploadProgress: map<string, int>
    var errors: seq<UploadError>

    /** The widget as first rendered, with the given props. The default
        applies to the whole `allowedTypes` object: a given object enables
        only the categories it sets to true. */
    constructor(maxSize: nat := 100, allowedTypes: Option<AllowedTypes> := None)
      ensures allowedTypes.None? ==> policy == Policy(maxSize, true, true, true)
      ensures allowedTypes.Some? ==> policy == Policy(maxSize, allowedTypes.value.image == Some(true),
        allowedTypes.value.video == Some(true), allowedTypes.value.audio == Some(true))
      ensures files == [] && uploadProgress == map[] && errors == []
    {
      if allowedTypes.None? {
        policy := Policy(maxSize, true, true, true);
      } else {
        var t := allowedTypes.value;
        policy := Policy(maxSize, t.image == Some(true), t.video == Some(true), t.audio == Some(true));
      }
      files := [];
      uploadProgress := map[];
      errors := [];
    }

    /** `processFiles`: the batch's errors replace the previous ones, the
        accepted files are appended and their progress starts at 0. */
    method ProcessFiles(newFiles: seq<File>)
      modifies this
      ensures errors == Errors(newFiles, policy)
      ensures files == old(files) + Accepted(newFiles, policy)
      ensures uploadProgress == StartProgress(old(uploadProgress), Accepted(newFiles, policy))
    {
      var validFiles, newErrors := Partition(newFiles, policy);
      errors := newErrors;
      assert validFiles[..0] == [];
      for i := 0 to |validFiles|
        invariant errors == newErrors && files == old(files)
        invariant uploadProgress == StartProgress(old(uploadProgress), validFiles[..i])
      {
        TakeOneMore(validFiles, i);
        assert validFiles[..i + 1][..i] == validFiles[..i];
        uploadProgress := uploadProgress[validFiles[i].name := 0];
      }
      assert validFiles[..|validFiles|] == validFiles;
      files := files + validFiles;
    }

    /** `removeFile`: every file of that name and its progress entry go. */
    method RemoveFile(fileName: string)
      modifies this
      ensures files == WithoutName(old(files), fileName)
      ensures uploadProgress == old(uploadProgress) - {fileName}
      ensures errors == old(errors)
    {
      files := WithoutName(files, fileName);
      uploadProgress := uploadProgress - {fileName};
    }
  }

  /** A file exactly at the limit passes; one byte more is rejected. */
  lemma LimitIsInclusive(f: File, p: Policy)
    requires f.mimeType in ValidTypes(p)
    ensures f.size == Limit(p) ==> ValidateFile(f, p).None?
    ensures f.size == Limit(p) + 1 ==> ValidateFile(f, p) == Some(SizeError(p.maxSize))
  {
  }

  /** With the default props the limit is 100 MB and all ten MIME types
      are accepted. */
  lemma DefaultPolicyAcceptsAll(f: File)
    ensures ValidateFile(f, DefaultPolicy).None? <==>
      (f.mimeType in ImageMimeTypes + VideoMimeTypes + AudioMimeTypes && f.size <= 104857600)
  {
  }
}
