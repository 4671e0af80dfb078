/** server/src/controllers/uploadController.js: the file, image and delete
    endpoints over the Cloudinary helpers. */
module UploadController {
  import opened Common
  import opened Http
  import opened UploadMiddleware

  /** What the controller asks of Cloudinary. */
  datatype CloudCall = Upload(options: map<string, string>) | Destroy(publicId: string, resourceType: string)

  /** Cloudinary's answer to an upload. */
  datatype CloudResult = CloudResult(secureUrl: string, publicId: string, resourceType: string, width: int, height: int)

  datatype FileInfo = FileInfo(url: string, publicId: string, fileName: string, fileSize: nat,
                               fileType: string, resourceType: string)
  datatype ImageInfo = ImageInfo(url: string, publicId: string, fileName: string, fileSize: nat,
                                 fileType: string, width: int, height: int)

  /** The resource type for a mimetype: images, videos, and everything else raw. */
  function ResourceKind(mimetype: string): (k: string)
    ensures StartsWith(mimetype, "image/") ==> k == "image"
    ensures !StartsWith(mimetype, "image/") && StartsWith(mimetype, "video/") ==> k == "video"
    ensures !StartsWith(mimetype, "image/") && !StartsWith(mimetype, "video/") ==> k == "raw"
    ensures k in {"image", "video", "raw"} && k != "auto"
  {
    if StartsWith(mimetype, "image/") then "image"
    else if StartsWith(mimetype, "video/") then "video"
    else "raw"
  }

  /** The `resourceType` variable: `'auto'` at first, then reassigned by the if-chain. */
  method ResourceType(mimetype: string) returns (resourceType: string)
    ensures resourceType == ResourceKind(mimetype)
  {
    resourceType := "auto";
    if StartsWith(mimetype, "image/") {
      resourceType := "image";
    } else if StartsWith(mimetype, "video/") {
      resourceType := "video";
    } else {
      resourceType := "raw";
    }
  }

  /** `const { folder = 'frostchat/files' } = req.body` */
  function FolderOrDefault(folder: Option<string>): string {
    if folder.Some? then folder.value else "frostchat/files"
  }

  /** The options `uploadFile` passes to the upload helper. */
  function FileUploadOptions(file: File, folder: Option<string>, uuid: string): map<string, string> {
    UploadOptions(map["folder" := FolderOrDefault(folder), "resourceType" := ResourceKind(file.mimetype)], uuid)
  }

  /** `uploadFile`: `cloud` is the outcome of the upload (`None` when it fails). */
  method UploadFile(file: Option<File>, folder: Option<string>, uuid: string, cloud: Option<CloudResult>)
    returns (reply: Reply<FileInfo>, call: Option<CloudCall>)
    ensures file.None? ==> reply == Err(400, "No file provided") && call.None?
    ensures file.Some? ==> call == Some(Upload(FileUploadOptions(file.value, folder, uuid)))
    ensures file.Some? && cloud.None? ==> reply == Err(500, "Failed to upload file")
    ensures file.Some? && cloud.Some? ==>
              reply == Ok(200, "", FileInfo(cloud.value.secureUrl, cloud.value.publicId, file.value.originalName,
                                            file.value.size, file.value.mimetype, cloud.value.resourceType))
  {
    if file.None? {
      return Err(400, "No file provided"), None;
    }
    var f := file.value;
    var resourceType := ResourceType(f.mimetype);
    call := Some(Upload(UploadOptions(map["folder" := FolderOrDefault(folder), "resourceType" := resourceType], uuid)));
    if cloud.None? {
      return Err(500, "Failed to upload file"), call;
    }
    var res := cloud.value;
    reply := Ok(200, "", FileInfo(res.secureUrl, res.publicId, f.originalName, f.size, f.mimetype, res.resourceType));
  }

  /** The options of a file upload: the folder defaults only when the body has
      none, the Cloudinary resource type is never `auto`, and the generated id
      starts with the folder. */
  lemma FileUploadOptionsShape(file: File, folder: Option<string>, uuid: string)
    ensures var o := FileUploadOptions(file, folder, uuid);
            o["folder"] == (if folder.Some? then folder.value else "frostchat/files") &&
            o["resource_type"] == ResourceKind(file.mimetype) && o["resource_type"] != "auto" &&
            o["public_id"] == (if Truthy(folder) || folder.None? then FolderOrDefault(folder) else "file") + "_" + uuid
  {
  }

  /** The image upload options, fixed apart from the generated id. */
  function ImageUploadOptions(uuid: string): map<string, string> {
    UploadOptions(map["folder" := "frostchat/images", "transformation" := "quality:auto:best,fetch_format:auto"], uuid)
  }

  /** `uploadImage` */
  method UploadImage(file: Option<File>, uuid: string, cloud: Option<CloudResult>)
    returns (reply: Reply<ImageInfo>, call: Option<CloudCall>)
    ensures file.None? ==> reply == Err(400, "No image provided") && call.None?
    ensures file.Some? && !StartsWith(file.value.mimetype, "image/") ==>
              reply == Err(400, "File must be an image") && call.None?
    ensures file.Some? && StartsWith(file.value.mimetype, "image/") ==>
              call == Some(Upload(ImageUploadOptions(uuid))) &&
              (cloud.None? ==> reply == Err(500, "Failed to upload image")) &&
              (cloud.Some? ==> reply == Ok(200, "", ImageInfo(cloud.value.secureUrl, cloud.value.publicId,
                                                             file.value.originalName, file.value.size,
                                                             file.value.mimetype, cloud.value.width,
                                                             cloud.value.height)))
  {
    if file.None? {
      return Err(400, "No image provided"), None;
    }
    var f := file.value;
    if !StartsWith(f.mimetype, "image/") {
      return Err(400, "File must be an image"), None;
    }
    call := Some(Upload(ImageUploadOptions(uuid)));
    if cloud.None? {
      return Err(500, "Failed to upload image"), call;
    }
    var res := cloud.value;
    reply := Ok(200, "", ImageInfo(res.secureUrl, res.publicId, f.originalName, f.size, f.mimetype, res.width, res.height));
  }

  /** Images go to `frostchat/images` with Cloudinary choosing the resource type. */
  lemma ImageUploadOptionsShape(uuid: string)
    ensures ImageUploadOptions(uuid)["folder"] == "frostchat/images"
    ensures ImageUploadOptions(uuid)["resource_type"] == "auto"
    ensures ImageUploadOptions(uuid)["public_id"] == "frostchat/images_" + uuid
  {
  }

  /** `deleteFile`: `destroyed` says whether Cloudinary's destroy succeeded. */
  function DeleteFile(publicId: Option<string>, resourceType: Option<string>, destroyed: bool)
    : (r: (Reply<()>, Option<CloudCall>))
    ensures !Truthy(publicId) ==> r == (Err(400, "Public ID is required"), None)
    ensures Truthy(publicId) ==>
              r.1 == Some(Destroy(publicId.value, if resourceType.Some? then resourceType.value else "image")) &&
              r.0 == if destroyed then Ok(200, "File deleted successfully", ()) else Err(500, "Failed to delete file")
  {
    if !Truthy(publicId) then (Err(400, "Public ID is required"), None)
    else
      var call := Destroy(publicId.value, DestroyResourceType(Some(if resourceType.Some? then resourceType.value else "image")));
      (if destroyed then Ok(200, "File deleted successfully", ()) else Err(500, "Failed to delete file"), Some(call))
  }

  /** The reply of the application's error handler, which a file multer refuses reaches. */
  const RefusedReply: Reply<FileInfo> := Err(500, "Something went wrong!")

  /** The upload route: multer, then the controller. A refused file reaches
      neither the controller nor Cloudinary. */
  method PostFile(file: Option<File>, folder: Option<string>, uuid: string, cloud: Option<CloudResult>)
    returns (reply: Reply<FileInfo>, call: Option<CloudCall>)
    ensures Multer(file).Refused? ==> reply == RefusedReply && call.None?
    ensures call.Some? ==> file.Some? && FileFilter(file.value.mimetype) && file.value.size <= MaxFileSize
    ensures file.None? ==> reply == Err(400, "No file provided") && call.None?
  {
    var intake := Multer(file);
    if intake.Refused? {
      return RefusedReply, None;
    }
    reply, call := UploadFile(intake.file, folder, uuid, cloud);
  }
}
