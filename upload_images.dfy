/**
 * `middleware/uploadImages.js`: the three middlewares of an image upload
 * (make the directory, let multer store the files, copy the stored file
 * names into the body), the file filter and the file name multer is told to
 * use. Multer itself, the disk, `randomUUID()` and `Date.now()` are not
 * part of this model: the outcome of `mkdir`, the uuid and the time are
 * parameters, and the files multer stored arrive as `req.files`.
 */
module UploadImages {
  import opened Wrappers
  import opened JsValues
  import opened JsStrings
  import opened JsNumbers
  import opened ApiErrors

  /** `fileFilter`: `None` is `cb(null, true)`, an error is `cb(error, false)`. */
  function FileFilter(mimetype: string): (r: Option<ApiError>)
    ensures r.Some? ==> r.value == ApiError("Only images allowed", 400)
  {
    if StartsWith(mimetype, "image") then None else Some(ApiError("Only images allowed", 400))
  }

  /**
   * The filter is a bare prefix test: every mimetype that begins with the
   * five letters `image` passes, `image/...` or not, and nothing else does.
   */
  lemma FileFilterIsPrefixTest(rest: string, other: string)
    ensures FileFilter("image" + rest).None?
    ensures |other| < 5 || other[..5] != "image" ==> FileFilter(other) == Some(ApiError("Only images allowed", 400))
  {
    assert ("image" + rest)[..5] == "image";
  }

  /** `file.mimetype.split('/')[1]`: the second `/`-separated piece, `undefined` when there is no `/`. */
  function Extension(mimetype: string): (r: Option<string>)
    ensures r.Some? ==> '/' !in r.value
  {
    var pieces := Split(mimetype, '/');
    if |pieces| >= 2 then Some(pieces[1]) else None
  }

  /**
   * A mimetype written as pieces joined by `/` has the second piece as its
   * extension (`image/png` gives `png`, `image/svg/xml` gives `svg`), and one
   * without a `/` has none.
   */
  lemma ExtensionOfPieces(pieces: seq<string>)
    requires |pieces| >= 1
    requires forall i :: 0 <= i < |pieces| ==> '/' !in pieces[i]
    ensures Extension(Join(pieces, '/')) == if |pieces| >= 2 then Some(pieces[1]) else None
  {
    SplitJoin(pieces, '/');
  }

  /** A mimetype without a `/` has no extension: the name then ends in `.undefined`. */
  lemma NoExtensionWithoutSlash(mimetype: string)
    requires '/' !in mimetype
    ensures Extension(mimetype) == None
  {
    SplitOfPlain(mimetype, '/');
  }

  /** The text a template literal makes of `ext`: `undefined` stands for a missing piece. */
  function ExtensionText(mimetype: string): string {
    Extension(mimetype).GetOr("undefined")
  }

  /**
   * `filename`: `${fieldname}-${uuid}-${now}.${ext}`, with the uuid and the
   * time in milliseconds given.
   */
  function Filename(fieldname: string, mimetype: string, uuid: string, now: nat): (r: string)
    ensures StartsWith(r, fieldname + "-")
    ensures EndsWith(r, "." + ExtensionText(mimetype))
  {
    var head := fieldname + "-";
    var tail := "." + ExtensionText(mimetype);
    var r := head + (uuid + "-" + ShowNat(now)) + tail;
    assert r[..|head|] == head;
    assert r[|r| - |tail|..] == tail;
    r
  }

  /**
   * Two files of the same field and the same mimetype get different names
   * whenever their uuids differ (uuids from `randomUUID` all have the same
   * length), even when they are stored in the same millisecond.
   */
  lemma FilenamesDiffer(fieldname: string, mimetype: string, uuid1: string, uuid2: string, now1: nat, now2: nat)
    requires |uuid1| == |uuid2| && uuid1 != uuid2
    ensures Filename(fieldname, mimetype, uuid1, now1) != Filename(fieldname, mimetype, uuid2, now2)
  {
    var n1 := Filename(fieldname, mimetype, uuid1, now1);
    var n2 := Filename(fieldname, mimetype, uuid2, now2);
    var a := |fieldname| + 1;
    var i :| 0 <= i < |uuid1| && uuid1[i] != uuid2[i];
    assert n1[a + i] == uuid1[i];
    assert n2[a + i] == uuid2[i];
  }

  /** The directory `ensureDir` creates and multer's `destination`: both `uploads/<folder>`. */
  function UploadDirectory(folderName: string): (r: string)
    ensures StartsWith(r, "uploads/") && r[|"uploads/"|..] == folderName
  {
    var r := "uploads/" + folderName;
    assert r[..|"uploads/"|] == "uploads/";
    r
  }

  /**
   * `ensureDir`: `next()` when `mkdir` succeeds, otherwise `next` with a 500
   * error. The outcome of `mkdir` is given.
   */
  function EnsureDir(mkdirSucceeded: bool): (r: Option<ApiError>)
    ensures r.None? <==> mkdirSucceeded
    ensures r.Some? ==> r.value == ApiError("Could not create upload directory", 500)
  {
    if mkdirSucceeded then None else Some(ApiError("Could not create upload directory", 500))
  }

  /** One entry of the `fields` list handed to `upload.fields`. */
  datatype FieldSpec = FieldSpec(name: string, maxCount: Option<nat>)

  /** What `uploadMixedImages` sets up: where `mkdir` goes, where multer stores, and which fields it takes. */
  datatype Upload = Upload(mkdirPath: string, destination: string, fields: seq<FieldSpec>)

  /** `uploadMixedImages(folderName, fields)`. */
  function UploadMixedImages(folderName: string, fields: seq<FieldSpec>): (u: Upload)
    ensures u.mkdirPath == u.destination == UploadDirectory(folderName)
    ensures u.fields == fields
  {
    var dir := UploadDirectory(folderName);
    Upload(dir, dir, fields)
  }

  /** `uploadSingleImage(folderName, fieldName = 'image')`: one field that takes one file. */
  function UploadSingleImage(folderName: string, fieldName: Option<string>): (u: Upload)
    ensures u.mkdirPath == u.destination == UploadDirectory(folderName)
    ensures u.fields == [FieldSpec(if fieldName.Some? then fieldName.value else "image", Some(1))]
  {
    UploadMixedImages(folderName, [FieldSpec(fieldName.GetOr("image"), Some(1))])
  }

  /** `uploadMultipleImages(folderName, fieldName = 'images', maxCount = 10)`. */
  function UploadMultipleImages(folderName: string, fieldName: Option<string>, maxCount: Option<nat>): (u: Upload)
    ensures u.mkdirPath == u.destination == UploadDirectory(folderName)
    ensures u.fields == [FieldSpec(if fieldName.Some? then fieldName.value else "images",
                                   Some(if maxCount.Some? then maxCount.value else 10))]
  {
    UploadMixedImages(folderName, [FieldSpec(fieldName.GetOr("images"), Some(maxCount.GetOr(10)))])
  }

  /** A file multer stored, as it appears in `req.files`. */
  datatype StoredFile = StoredFile(fieldname: string, mimetype: string, filename: string)

  /** `files.map(file => file.filename)`. */
  function Filenames(files: seq<StoredFile>): (r: seq<Value>)
    ensures |r| == |files|
    ensures forall i :: 0 <= i < |files| ==> r[i] == Str(files[i].filename)
  {
    if files == [] then [] else [Str(files[0].filename)] + Filenames(files[1..])
  }

  /** What `attachFilenames` stores for a field with files: the name itself for one file, the list of names for more. */
  function FieldValue(files: seq<StoredFile>): Value
    requires |files| > 0
  {
    if |files| == 1 then Str(files[0].filename) else List(Filenames(files))
  }

  /** The body once the fields in `done` have been handled, in any order. */
  function AttachedFor(body: map<string, Value>, files: map<string, seq<StoredFile>>, done: set<string>): map<string, Value>
    requires done <= files.Keys
  {
    var filled := Filled(files, done);
    map k | k in body.Keys + filled :: if k in filled then FieldValue(files[k]) else body[k]
  }

  /** The fields of `done` that have at least one file. */
  function Filled(files: map<string, seq<StoredFile>>, done: set<string>): (r: set<string>)
    requires done <= files.Keys
    ensures forall k :: k in r <==> k in done && |files[k]| > 0
  {
    set k | k in done && |files[k]| > 0
  }

  /** The body after `attachFilenames`. */
  function Attached(body: map<string, Value>, files: Option<map<string, seq<StoredFile>>>): map<string, Value> {
    if files.None? then body else AttachedFor(body, files.value, files.value.Keys)
  }

  /** Without `req.files` the body is left as it is. */
  lemma AttachedWithoutFiles(body: map<string, Value>)
    ensures Attached(body, None) == body
  {
  }

  /**
   * A field with one file gets that file's name as a string, whatever its
   * `maxCount`; a field with more gets the list of names in order; a field
   * with no files, and every key no file field names, keeps its entry, or
   * stays absent.
   */
  lemma AttachedEntries(body: map<string, Value>, files: map<string, seq<StoredFile>>, k: string)
    ensures var r := Attached(body, Some(files));
            && (k in files && |files[k]| == 1 ==> k in r && r[k] == Str(files[k][0].filename))
            && (k in files && |files[k]| > 1 ==>
                  k in r && r[k].List? && |r[k].items| == |files[k]|
                  && forall i :: 0 <= i < |files[k]| ==> r[k].items[i] == Str(files[k][i].filename))
            && (k !in files || |files[k]| == 0 ==> (k in r <==> k in body) && (k in body ==> r[k] == body[k]))
  {
  }

  /** The request `attachFilenames` writes to. */
  class UploadRequest {
    var body: map<string, Value>

    constructor (body: map<string, Value>)
      ensures this.body == body
    {
      this.body := body;
    }

    /**
     * `attachFilenames`: for every field of `req.files` with at least one
     * file, `req.body[field]` is set; then `next()` is called once.
     */
    method AttachFilenames(files: Option<map<string, seq<StoredFile>>>) returns (nextCalls: nat)
      modifies this
      ensures body == Attached(old(body), files)
      ensures nextCalls == 1
    {
      if files.Some? {
        var fm := files.value;
        var pending := fm.Keys;
        ghost var before := body;
        while pending != {}
          invariant pending <= fm.Keys
          invariant body == AttachedFor(before, fm, fm.Keys - pending)
          decreases pending
        {
          var field :| field in pending;
          var stored := fm[field];
          ghost var prev := body;
          if |stored| > 0 {
            if |stored| == 1 {
              body := body[field := Str(stored[0].filename)];
            } else {
              body := body[field := List(Filenames(stored))];
            }
          }
          assert body == if |stored| > 0 then prev[field := FieldValue(stored)] else prev;
          AttachedStep(before, fm, fm.Keys - pending, field);
          assert (fm.Keys - pending) + {field} == fm.Keys - (pending - {field});
          pending := pending - {field};
        }
        assert fm.Keys - pending == fm.Keys;
      }
      nextCalls := 1;
    }
  }

  /** Handling one more field changes that field's entry alone. */
  lemma AttachedStep(body: map<string, Value>, files: map<string, seq<StoredFile>>, done: set<string>, field: string)
    requires done <= files.Keys && field in files && field !in done
    ensures AttachedFor(body, files, done + {field}) ==
            if |files[field]| > 0 then AttachedFor(body, files, done)[field := FieldValue(files[field])]
            else AttachedFor(body, files, done)
  {
  }
}
