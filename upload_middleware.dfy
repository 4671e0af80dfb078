/** server/src/middleware/upload.js: multer's file filter and size limit, and
    the option defaults of the Cloudinary upload helper. */
module UploadMiddleware {
  import opened Common

  /** What multer reports about an uploaded file (its buffer is not modelled). */
  datatype File = File(mimetype: string, size: nat, originalName: string)

  const AllowedImageTypes: seq<string> := ["image/jpeg", "image/png", "image/gif", "image/webp"]

  /** The two long Office types are written as `"application/" + ...` so
      that proofs about the allow-list can see their prefix. */
  const OtherFileTypes: seq<string> := [
    "application/pdf",
    "application/msword",
    "application/" + "vnd.openxmlformats-officedocument.wordprocessingml.document",
    "application/vnd.ms-excel",
    "application/" + "vnd.openxmlformats-officedocument.spreadsheetml.sheet",
    "text/plain",
    "application/zip",
    "video/mp4",
    "video/webm"]

  const AllowedFileTypes: seq<string> := AllowedImageTypes + OtherFileTypes

  /** `limits.fileSize`: 50 MiB. */
  const MaxFileSize: nat := 50 * 1024 * 1024

  /** `fileFilter`: an exact match against the allow-list. */
  predicate FileFilter(mimetype: string): (ok: bool)
    ensures ok ==> MediaFamily(mimetype)
  {
    AllowedTypesAreMedia();
    mimetype in AllowedFileTypes
  }

  /** The top-level media types of the allow-list. */
  predicate MediaFamily(mimetype: string) {
    StartsWith(mimetype, "image/") || StartsWith(mimetype, "application/") ||
    StartsWith(mimetype, "text/") || StartsWith(mimetype, "video/")
  }

  lemma AllowedTypesAreMedia()
    ensures forall t :: t in AllowedFileTypes ==> MediaFamily(t)
  {
    assert MediaFamily(OtherFileTypes[2]) by { assert OtherFileTypes[2][..12] == "application/"; }
    assert MediaFamily(OtherFileTypes[4]) by { assert OtherFileTypes[4][..12] == "application/"; }
  }

  /** The allow-list has thirteen distinct entries. */
  lemma AllowListSize()
    ensures |AllowedFileTypes| == 13 && NoDups(AllowedFileTypes)
    ensures MaxFileSize == 52428800
  {
  }

  /** Among image types exactly jpeg, png, gif and webp pass the filter, so
      an SVG or a HEIC photo is refused. */
  lemma ImageTypesAccepted(mimetype: string)
    requires StartsWith(mimetype, "image/")
    ensures FileFilter(mimetype) <==> mimetype in AllowedImageTypes
    ensures !FileFilter("image/svg+xml") && !FileFilter("image/heic")
  {
    assert mimetype[0] == 'i';
    assert OtherFileTypes[0][0] == 'a' && OtherFileTypes[1][0] == 'a' && OtherFileTypes[2][0] == 'a';
    assert OtherFileTypes[3][0] == 'a' && OtherFileTypes[4][0] == 'a' && OtherFileTypes[5][0] == 't';
    assert OtherFileTypes[6][0] == 'a' && OtherFileTypes[7][0] == 'v' && OtherFileTypes[8][0] == 'v';
  }

  /** What `upload.single(field)` does with a request before the controller. */
  datatype Intake = Passed(file: Option<File>) | Refused

  /** A request without a file passes on with none; a file of another type or
      over the limit is refused (the error reaches the application's error
      handler); any other file is handed to the controller. */
  function Multer(file: Option<File>): (r: Intake)
    ensures file.None? ==> r == Passed(None)
    ensures r.Passed? && r.file.Some? ==>
              r.file == file && FileFilter(r.file.value.mimetype) && r.file.value.size <= MaxFileSize
    ensures r.Refused? <==> file.Some? && !(FileFilter(file.value.mimetype) && file.value.size <= MaxFileSize)
  {
    if file.None? then Passed(None)
    else if FileFilter(file.value.mimetype) && file.value.size <= MaxFileSize then Passed(file)
    else Refused
  }

  /** `options[key]`: the value when the caller set the key, `undefined` otherwise. */
  function Given(options: map<string, string>, key: string): Option<string> {
    if key in options then Some(options[key]) else None
  }

  /** `uploadOptions` in `uploadToCloudinary`: defaults for folder, public_id and
      resource_type, then every caller option spread over them. `uuid` stands
      for `uuidv4()`. */
  function UploadOptions(options: map<string, string>, uuid: string): (r: map<string, string>)
    ensures r.Keys == options.Keys + {"folder", "public_id", "resource_type"}
    ensures forall k :: k in options ==> r[k] == options[k]
    ensures "folder" !in options ==> r["folder"] == "frostchat"
    ensures "public_id" !in options ==>
              r["public_id"] == if Truthy(Given(options, "publicId")) then options["publicId"]
                                else (if Truthy(Given(options, "folder")) then options["folder"] else "file") + "_" + uuid
    ensures "resource_type" !in options ==>
              r["resource_type"] == if Truthy(Given(options, "resourceType")) then options["resourceType"] else "auto"
  {
    var folder := OrElse(Given(options, "folder"), Some("frostchat")).value;
    var publicId := OrElse(Given(options, "publicId"),
                           Some(OrElse(Given(options, "folder"), Some("file")).value + "_" + uuid)).value;
    var resourceType := OrElse(Given(options, "resourceType"), Some("auto")).value;
    map["folder" := folder, "public_id" := publicId, "resource_type" := resourceType] + options
  }

  /** An explicit empty folder wins over the default through the spread, and
      the generated public id then starts with `file_`. */
  lemma EmptyFolderKept(uuid: string)
    ensures UploadOptions(map["folder" := ""], uuid)["folder"] == ""
    ensures UploadOptions(map["folder" := ""], uuid)["public_id"] == "file_" + uuid
  {
  }

  /** `deleteFromCloudinary(publicId, resourceType = 'image')` */
  function DestroyResourceType(resourceType: Option<string>): (r: string)
    ensures resourceType.None? ==> r == "image"
    ensures resourceType.Some? ==> r == resourceType.value
  {
    if resourceType.Some? then resourceType.value else "image"
  }
}
