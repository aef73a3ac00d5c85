/** The media library uploader (`MediaUpload.tsx`): which chosen files the `accept`
    list and the size limit let through, how each accepted file becomes a library
    entry, how the new entries join the library, and the remove and metadata edits.
    The file id, the object URL and the upload time come from outside and are
    parameters. */
module MediaUpload {
  import opened Js
  import opened Seqs
  import Store

  /** A file as the browser hands it over. */
  datatype FileInfo = FileInfo(name: string, mimeType: string, size: int)

  datatype MediaKind = Image | Video | Document

  datatype MediaFile = MediaFile(id: string, name: string, kind: MediaKind, url: string,
                                 size: int, uploadedAt: string, alt: Option<string>,
                                 caption: Option<string>)

  datatype MetadataField = Alt | Caption

  const DefaultAccept := "image/*,video/*,.pdf,.doc,.docx"
  const DefaultMaxSize := 10
  const BytesPerMegabyte := 1024 * 1024

  /** One `accept` entry. An entry ending in a slash and a star matches every MIME type
      starting with the text before the star; any other entry matches that exact MIME
      type, or a file name ending with the entry without its first character. */
  predicate EntryMatches(entry: string, f: FileInfo) {
    if EndsWith(entry, "/*") then StartsWith(f.mimeType, Slice(entry, 0, -1))
    else f.mimeType == entry || EndsWith(f.name, Slice(entry, 1, |entry|))
  }

  /** `entries.some(...)`. */
  predicate SomeEntryMatches(entries: seq<string>, f: FileInfo) {
    entries != [] && (EntryMatches(entries[0], f) || SomeEntryMatches(entries[1..], f))
  }

  /** `accept.split(',').some(...)`. */
  predicate AcceptsType(accept: string, f: FileInfo) {
    SomeEntryMatches(Split(accept, ','), f)
  }

  /** `some` holds iff one of the entries matches. */
  lemma {:induction false} SomeEntryMatchesIff(entries: seq<string>, f: FileInfo)
    ensures SomeEntryMatches(entries, f) <==> exists i :: 0 <= i < |entries| && EntryMatches(entries[i], f)
  {
    if entries != [] {
      SomeEntryMatchesIff(entries[1..], f);
      if !EntryMatches(entries[0], f) && exists i :: 0 <= i < |entries| && EntryMatches(entries[i], f) {
        var i :| 0 <= i < |entries| && EntryMatches(entries[i], f);
        assert entries[1..][i - 1] == entries[i];
      }
    }
  }

  predicate AcceptsSize(maxSize: int, f: FileInfo) {
    f.size <= maxSize * BytesPerMegabyte
  }

  predicate IsValidFile(accept: string, maxSize: int, f: FileInfo) {
    AcceptsType(accept, f) && AcceptsSize(maxSize, f)
  }

  /** `validFiles`. */
  function ValidFiles(files: seq<FileInfo>, accept: string, maxSize: int): seq<FileInfo> {
    Filter(files, (f: FileInfo) => IsValidFile(accept, maxSize, f))
  }

  /** The `type` of a new entry, read from the MIME type. */
  function Classify(mimeType: string): MediaKind {
    if StartsWith(mimeType, "image/") then Image
    else if StartsWith(mimeType, "video/") then Video
    else Document
  }

  /** The entry for an accepted file: its name is also its alt text; the caption is
      empty. */
  function ToMedia(f: FileInfo, id: string, url: string, now: string): MediaFile {
    MediaFile(id, f.name, Classify(f.mimeType), url, f.size, now, Some(f.name), Some(""))
  }

  /** The entries for the accepted files, in order; the `k`-th file gets `ids(k)`. */
  function Uploaded(valid: seq<FileInfo>, ids: nat -> string, urlOf: FileInfo -> string,
                    now: string): seq<MediaFile> {
    seq(|valid|, (k: int) requires 0 <= k < |valid| => ToMedia(valid[k], ids(k), urlOf(valid[k]), now))
  }

  /** `multiple ? [...prev, ...newFiles] : newFiles`. */
  function Merge(prev: seq<MediaFile>, newFiles: seq<MediaFile>, multiple: bool): seq<MediaFile> {
    if multiple then prev + newFiles else newFiles
  }

  /** An entry ending in a slash and a star matches exactly the MIME types that start
      with the text before the star. */
  lemma WildcardEntry(entry: string, f: FileInfo)
    requires EndsWith(entry, "/*")
    ensures EntryMatches(entry, f) <==> StartsWith(f.mimeType, entry[..|entry| - 1])
  {
  }

  /** Any other entry matches its exact MIME type, or a name ending with the entry less
      its first character: '.pdf' takes any name ending in 'pdf', dot or not. */
  lemma ExtensionEntry(entry: string, f: FileInfo)
    requires !EndsWith(entry, "/*") && |entry| >= 1
    ensures EntryMatches(entry, f) <==> f.mimeType == entry || EndsWith(f.name, entry[1..])
  {
  }

  lemma ExtensionWithoutDot()
    ensures EntryMatches(".pdf", FileInfo("notapdf", "text/plain", 1))
  {
    assert Slice(".pdf", 1, 4) == "pdf";
  }

  /** An empty entry, left by a trailing comma, matches every file. */
  lemma EmptyEntryMatchesAll(f: FileInfo)
    ensures EntryMatches("", f)
  {
    assert Slice("", 1, 0) == [];
  }

  /** Five comma-free pieces joined by commas split back into the five. */
  lemma SplitFive(a: string, b: string, c: string, d: string, e: string)
    requires ',' !in a && ',' !in b && ',' !in c && ',' !in d && ',' !in e
    ensures Split(a + "," + b + "," + c + "," + d + "," + e, ',') == [a, b, c, d, e]
  {
    assert Split(a, ',') == [a];
    SplitSnoc(a, b, ',');
    assert [a] + [b] == [a, b];
    SplitSnoc(a + "," + b, c, ',');
    assert [a, b] + [c] == [a, b, c];
    SplitSnoc(a + "," + b + "," + c, d, ',');
    assert [a, b, c] + [d] == [a, b, c, d];
    SplitSnoc(a + "," + b + "," + c + "," + d, e, ',');
    assert [a, b, c, d] + [e] == [a, b, c, d, e];
  }

  /** The entries of the default `accept` value. */
  lemma DefaultAcceptEntries()
    ensures Split(DefaultAccept, ',') == ["image/*", "video/*", ".pdf", ".doc", ".docx"]
  {
    assert DefaultAccept == "image/*" + "," + "video/*" + "," + ".pdf" + "," + ".doc" + "," + ".docx";
    SplitFive("image/*", "video/*", ".pdf", ".doc", ".docx");
  }

  /** The matching rule for each of the default entries. */
  lemma DefaultEntryRules(f: FileInfo)
    ensures EntryMatches("image/*", f) <==> StartsWith(f.mimeType, "image/")
    ensures EntryMatches("video/*", f) <==> StartsWith(f.mimeType, "video/")
    ensures EntryMatches(".pdf", f) <==> f.mimeType == ".pdf" || EndsWith(f.name, "pdf")
    ensures EntryMatches(".doc", f) <==> f.mimeType == ".doc" || EndsWith(f.name, "doc")
    ensures EntryMatches(".docx", f) <==> f.mimeType == ".docx" || EndsWith(f.name, "docx")
  {
    WildcardLiteral("image/*", "image/", f);
    WildcardLiteral("video/*", "video/", f);
    ExtensionLiteral(".pdf", "pdf", f);
    ExtensionLiteral(".doc", "doc", f);
    ExtensionLiteral(".docx", "docx", f);
  }

  lemma WildcardLiteral(entry: string, prefix: string, f: FileInfo)
    requires entry == prefix + "*" && EndsWith(entry, "/*")
    ensures EntryMatches(entry, f) <==> StartsWith(f.mimeType, prefix)
  {
    assert Slice(entry, 0, -1) == prefix;
  }

  lemma ExtensionLiteral(entry: string, ext: string, f: FileInfo)
    requires entry == "." + ext && !EndsWith(entry, "/*")
    ensures EntryMatches(entry, f) <==> f.mimeType == entry || EndsWith(f.name, ext)
  {
    assert Slice(entry, 1, |entry|) == ext;
  }

  /** `some` over five entries is the disjunction of the five matches. */
  lemma SomeOfFive(a: string, b: string, c: string, d: string, e: string, f: FileInfo)
    ensures SomeEntryMatches([a, b, c, d, e], f) <==>
      EntryMatches(a, f) || EntryMatches(b, f) || EntryMatches(c, f) || EntryMatches(d, f) || EntryMatches(e, f)
  {
    assert [a, b, c, d, e][1..] == [b, c, d, e];
    assert [b, c, d, e][1..] == [c, d, e];
    assert [c, d, e][1..] == [d, e];
    assert [d, e][1..] == [e];
    assert [e][1..] == [];
    assert SomeEntryMatches([e], f) == EntryMatches(e, f);
    assert SomeEntryMatches([d, e], f) == (EntryMatches(d, f) || SomeEntryMatches([e], f));
    assert SomeEntryMatches([c, d, e], f) == (EntryMatches(c, f) || SomeEntryMatches([d, e], f));
    assert SomeEntryMatches([b, c, d, e], f) == (EntryMatches(b, f) || SomeEntryMatches([c, d, e], f));
  }

  /** An `accept` value with the five default entries lets a file through iff it is an
      image or a video, or its MIME type or name fits one of the document entries. */
  lemma FiveEntryTypes(accept: string, f: FileInfo)
    requires Split(accept, ',') == ["image/*", "video/*", ".pdf", ".doc", ".docx"]
    ensures AcceptsType(accept, f) <==>
      StartsWith(f.mimeType, "image/") || StartsWith(f.mimeType, "video/")
      || f.mimeType == ".pdf" || EndsWith(f.name, "pdf")
      || f.mimeType == ".doc" || EndsWith(f.name, "doc")
      || f.mimeType == ".docx" || EndsWith(f.name, "docx")
  {
    SomeOfFive("image/*", "video/*", ".pdf", ".doc", ".docx", f);
    DefaultEntryRules(f);
  }

  /** The default `accept` value: images, videos, and the three document entries. */
  lemma DefaultAcceptTypes(f: FileInfo)
    ensures AcceptsType(DefaultAccept, f) <==>
      StartsWith(f.mimeType, "image/") || StartsWith(f.mimeType, "video/")
      || f.mimeType == ".pdf" || EndsWith(f.name, "pdf")
      || f.mimeType == ".doc" || EndsWith(f.name, "doc")
      || f.mimeType == ".docx" || EndsWith(f.name, "docx")
  {
    DefaultAcceptEntries();
    FiveEntryTypes(DefaultAccept, f);
  }

  /** The size limit is `maxSize` megabytes of 1024 * 1024 bytes, inclusive. */
  lemma SizeLimit(f: FileInfo)
    ensures AcceptsSize(DefaultMaxSize, f) <==> f.size <= 10485760
  {
  }

  /** Accepted files are exactly the chosen files passing both checks, in order. */
  lemma ValidFilesProps(files: seq<FileInfo>, accept: string, maxSize: int)
    ensures var v := ValidFiles(files, accept, maxSize);
      IsSubsequence(v, files)
      && (forall f :: f in v ==> AcceptsType(accept, f) && f.size <= maxSize * 1048576)
      && (forall f :: f in files && AcceptsType(accept, f) && AcceptsSize(maxSize, f) ==> f in v)
  {
  }

  /** image/ and video/ types get their own kind; everything else is a document. */
  lemma ClassifyProps(mimeType: string)
    ensures Classify(mimeType) == Image <==> StartsWith(mimeType, "image/")
    ensures Classify(mimeType) == Video <==> StartsWith(mimeType, "video/")
    ensures Classify(mimeType) == Document <==>
      !StartsWith(mimeType, "image/") && !StartsWith(mimeType, "video/")
  {
    if StartsWith(mimeType, "image/") {
      assert mimeType[..6] == "image/";
      assert !StartsWith(mimeType, "video/") by {
        assert mimeType[0] == 'i';
      }
    }
  }

  /** One entry per accepted file, carrying its name, size and kind. */
  lemma UploadedProps(valid: seq<FileInfo>, ids: nat -> string, urlOf: FileInfo -> string, now: string)
    ensures var u := Uploaded(valid, ids, urlOf, now);
      |u| == |valid|
      && forall k :: 0 <= k < |valid| ==>
           u[k].id == ids(k) && u[k].name == valid[k].name && u[k].size == valid[k].size
           && u[k].kind == Classify(valid[k].mimeType) && u[k].alt == Some(valid[k].name)
  {
  }

  /** With `multiple` the new entries follow the old ones; without, they replace them. */
  lemma MergeProps(prev: seq<MediaFile>, newFiles: seq<MediaFile>)
    ensures |Merge(prev, newFiles, true)| == |prev| + |newFiles|
    ensures Merge(prev, newFiles, true)[..|prev|] == prev && Merge(prev, newFiles, true)[|prev|..] == newFiles
    ensures Merge(prev, newFiles, false) == newFiles
  {
    assert (prev + newFiles)[..|prev|] == prev;
    assert (prev + newFiles)[|prev|..] == newFiles;
  }

  function MediaId(m: MediaFile): string { m.id }

  /** `{ ...file, [field]: value }`. */
  function SetMetadata(m: MediaFile, field: MetadataField, value: string): MediaFile {
    match field
    case Alt => m.(alt := Some(value))
    case Caption => m.(caption := Some(value))
  }

  /** `updateFileMetadata`. */
  function UpdateMetadata(files: seq<MediaFile>, id: string, field: MetadataField, value: string): seq<MediaFile> {
    Store.UpdateById(files, MediaId, id, (m: MediaFile) => SetMetadata(m, field, value))
  }

  /** Only the named field of the entries with the id changes. */
  lemma UpdateMetadataProps(files: seq<MediaFile>, id: string, field: MetadataField, value: string)
    ensures var r := UpdateMetadata(files, id, field, value);
      |r| == |files|
      && (forall i :: 0 <= i < |files| && files[i].id == id ==>
            (field == Alt ==> r[i] == files[i].(alt := Some(value)))
            && (field == Caption ==> r[i] == files[i].(caption := Some(value))))
      && (forall i :: 0 <= i < |files| && files[i].id != id ==> r[i] == files[i])
  {
    Store.UpdateByIdProps(files, MediaId, id, (m: MediaFile) => SetMetadata(m, field, value));
  }

  /** `removeFile` drops the entries with the id and keeps the rest in order. */
  lemma RemoveFileProps(files: seq<MediaFile>, id: string)
    ensures var r := Store.DeleteById(files, MediaId, id);
      IsSubsequence(r, files) && (forall m :: m in r ==> m.id != id)
      && (forall m :: m in files && m.id != id ==> m in r)
  {
    Store.DeleteByIdProps(files, MediaId, id);
  }

  /** The loop over the accepted files that builds `newFiles`. */
  method UploadAll(valid: seq<FileInfo>, ids: nat -> string, urlOf: FileInfo -> string, now: string)
    returns (newFiles: seq<MediaFile>)
    ensures newFiles == Uploaded(valid, ids, urlOf, now)
  {
    newFiles := [];
    var k := 0;
    while k < |valid|
      invariant 0 <= k <= |valid|
      invariant |newFiles| == k
      invariant forall j :: 0 <= j < k ==> newFiles[j] == ToMedia(valid[j], ids(j), urlOf(valid[j]), now)
    {
      newFiles := newFiles + [ToMedia(valid[k], ids(k), urlOf(valid[k]), now)];
      k := k + 1;
    }
  }

  /** What the component's drag handler receives, by `e.type`. */
  datatype DragEvent = DragEnter | DragOver | DragLeave | OtherDrag

  /** An upload between its awaits: the entries built for the accepted files and the
      `files` list of the render whose `handleFiles` is running. */
  datatype Upload = Upload(newFiles: seq<MediaFile>, captured: seq<MediaFile>)

  /** The list handed to `onFileSelect` is built from the captured list, while the
      stored list is built from the current one. With `multiple` a non-empty current
      list makes the two differ when nothing was captured, as after a drop. */
  lemma StaleReport(current: seq<MediaFile>, newFiles: seq<MediaFile>)
    requires current != []
    ensures Merge([], newFiles, true) == newFiles
    ensures Merge(current, newFiles, true) != Merge([], newFiles, true)
  {
    assert |Merge(current, newFiles, true)| == |current| + |newFiles|;
  }

  class Library {
    const multiple: bool
    const accept: string
    const maxSize: int
    var files: seq<MediaFile>
    var isUploading: bool
    var dragActive: bool

    /** The component's props; the library starts empty, idle and not dragged over. */
    constructor(multiple: bool, accept: string, maxSize: int)
      ensures this.multiple == multiple && this.accept == accept && this.maxSize == maxSize
      ensures files == [] && !isUploading && !dragActive
    {
      this.multiple := multiple;
      this.accept := accept;
      this.maxSize := maxSize;
      files := [];
      isUploading := false;
      dragActive := false;
    }

    /** `handleDrag`: entering or moving over the drop zone activates it, leaving it
        deactivates it, any other event leaves it as it was. */
    method HandleDrag(e: DragEvent)
      modifies this
      ensures dragActive == (if e == DragEnter || e == DragOver then true
                             else if e == DragLeave then false else old(dragActive))
      ensures files == old(files) && isUploading == old(isUploading)
    {
      if e == DragEnter || e == DragOver {
        dragActive := true;
      } else if e == DragLeave {
        dragActive := false;
      }
    }

    /** `handleFiles` up to and through its awaits: nothing happens when no file is
        accepted; otherwise the library is marked as uploading and the entries for the
        accepted files, in order, are built. The stored list is not touched yet. */
    method BeginUpload(chosen: seq<FileInfo>, ids: nat -> string, urlOf: FileInfo -> string, now: string,
                       captured: seq<MediaFile>)
      returns (job: Option<Upload>)
      modifies this
      ensures files == old(files) && dragActive == old(dragActive)
      ensures var valid := ValidFiles(chosen, accept, maxSize);
        if valid == [] then job == None && isUploading == old(isUploading)
        else isUploading && job == Some(Upload(Uploaded(valid, ids, urlOf, now), captured))
    {
      var valid := ValidFiles(chosen, accept, maxSize);
      if |valid| == 0 {
        return None;
      }
      isUploading := true;
      var newFiles := UploadAll(valid, ids, urlOf, now);
      job := Some(Upload(newFiles, captured));
    }

    /** The rest of `handleFiles`: the new entries are merged into the list as it is
        now, the upload ends, and `onFileSelect` gets them merged into the captured
        list. When the captured list is the current one the report is the new list. */
    method FinishUpload(job: Upload) returns (selected: seq<MediaFile>)
      modifies this
      ensures files == Merge(old(files), job.newFiles, multiple)
      ensures !isUploading && dragActive == old(dragActive)
      ensures selected == Merge(job.captured, job.newFiles, multiple)
      ensures job.captured == old(files) ==> selected == files
    {
      files := Merge(files, job.newFiles, multiple);
      isUploading := false;
      selected := Merge(job.captured, job.newFiles, multiple);
    }

    /** `handleFileInput`: the handler of the current render runs, so it captures the
        current list. */
    method HandleFileInput(chosen: seq<FileInfo>, ids: nat -> string, urlOf: FileInfo -> string, now: string)
      returns (job: Option<Upload>)
      modifies this
      ensures files == old(files) && dragActive == old(dragActive)
      ensures var valid := ValidFiles(chosen, accept, maxSize);
        if valid == [] then job == None && isUploading == old(isUploading)
        else isUploading && job == Some(Upload(Uploaded(valid, ids, urlOf, now), old(files)))
    {
      job := BeginUpload(chosen, ids, urlOf, now, files);
    }

    /** `handleDrop`: the drop zone is deactivated and the files go to the
        `handleFiles` of the first render, memoised with no dependencies, whose list
        was still empty. */
    method HandleDrop(chosen: seq<FileInfo>, ids: nat -> string, urlOf: FileInfo -> string, now: string)
      returns (job: Option<Upload>)
      modifies this
      ensures files == old(files) && !dragActive
      ensures var valid := ValidFiles(chosen, accept, maxSize);
        if valid == [] then job == None && isUploading == old(isUploading)
        else isUploading && job == Some(Upload(Uploaded(valid, ids, urlOf, now), []))
    {
      dragActive := false;
      job := BeginUpload(chosen, ids, urlOf, now, []);
    }

    method RemoveFile(id: string)
      modifies this
      ensures files == Store.DeleteById(old(files), MediaId, id)
      ensures isUploading == old(isUploading) && dragActive == old(dragActive)
    {
      files := Store.DeleteById(files, MediaId, id);
    }

    method UpdateFileMetadata(id: string, field: MetadataField, value: string)
      modifies this
      ensures files == UpdateMetadata(old(files), id, field, value)
      ensures isUploading == old(isUploading) && dragActive == old(dragActive)
    {
      files := UpdateMetadata(files, id, field, value);
    }
  }
}
