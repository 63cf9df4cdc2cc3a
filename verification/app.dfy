/** app.py: the three handlers that touch the upload folder. Only the
    decisions they make are modelled; rendering, flashing and redirecting are
    reduced to the response values below. */
module App {
  import opened Wrappers
  import opened Text
  import opened Folder
  import opened Utils

  const UploadFolderPath := "/tmp/uploads"

  /** The text scan_page stores when saving or decoding raised. */
  const ScanErrorText := "Error processing image."

  // ---------------------------------------------------------------------
  // serve_image
  // ---------------------------------------------------------------------

  datatype ServeResult = Sent(content: Bytes, asAttachment: bool) | NotFound

  /** `serve_image(name)`: the `<name>` route segment holds no `/`, and
      `send_from_directory` sends a regular file of that name, as an
      attachment for POST; anything else is answered with 404. */
  function ServeImage(folder: UploadFolder, name: string, isPost: bool): (r: ServeResult)
    reads folder
    ensures r.Sent? <==> '/' !in name && folder.present && name in folder.entries && folder.entries[name].File?
    ensures r.Sent? ==> r.content == folder.entries[name].content && r.asAttachment == isPost
  {
    if '/' !in name && folder.present && name in folder.entries && folder.entries[name].File? then
      Sent(folder.entries[name].content, isPost)
    else
      NotFound
  }

  // ---------------------------------------------------------------------
  // generate_page
  // ---------------------------------------------------------------------

  /** The page rendered with the new image's name and a success flash, or the
      redirect after flashing the exception's message. */
  datatype GenerateResponse = Rendered(image: string) | Redirected(error: GenerateError)

  /** The text generate_page hands to generate_qr: the `data` field, or "" when
      it is missing, with Python whitespace stripped. There is no emptiness
      check. */
  function GenerateInput(form: Option<string>): (data: string)
    ensures form.None? ==> data == ""
    ensures exists i :: TrimmedAt(form.GetOr(""), data, i, IsPyWhitespace)
    ensures data != [] ==> !IsPyWhitespace(data[0]) && !IsPyWhitespace(data[|data| - 1])
  {
    TrimSpec(form.GetOr(""), IsPyWhitespace);
    Trim(form.GetOr(""), IsPyWhitespace)
  }

  /** POST `/generate`. `form` is the `data` field of the request, and
      `saved` the name the image is saved under. The page is rendered with
      the name generate_qr returns as written: the image's whole path, which
      serve_image cannot find, while the image itself is there under its
      own name. */
  method GeneratePage(folder: UploadFolder, form: Option<string>,
                      encode: string -> Option<Bytes>, draw: nat -> string, failing: set<string>,
                      saveFails: bool)
    returns (resp: GenerateResponse, ghost saved: string)
    requires folder.Valid()
    requires forall k: nat :: IsCandidate(draw(k))
    modifies folder
    ensures folder.Valid() && folder.present == old(folder.present)
    ensures var image := encode(GenerateInput(form));
      var e := GenerateFailure(old(folder.present), old(AllTaken(folder, draw)), image.Some?, saveFails);
      && (resp.Redirected? <==> e.Some?)
      && (resp.Redirected? ==> resp.error == e.value)
      && (resp.Redirected? && resp.error != SaveFailed ==> folder.entries == old(folder.entries))
      && (resp.Redirected? && resp.error == SaveFailed ==> folder.entries == Cleared(old(folder.entries), failing))
      && (resp.Rendered? ==> folder.entries == Cleared(old(folder.entries), failing)[saved := File(image.value)])
      && (resp.Rendered? ==> IsQrName(saved) && resp.image == UploadFolderPath + "/" + saved)
      && (resp.Rendered? ==> ServeImage(folder, resp.image, false) == NotFound)
      && (resp.Rendered? ==> ServeImage(folder, saved, false) == Sent(image.value, false))
  {
    var data := GenerateInput(form);
    var r;
    r, saved := GenerateQr(folder, data, UploadFolderPath, encode, draw, failing, saveFails);
    if r.Ok? {
      resp := Rendered(r.value);
      AsWrittenImageNameKeepsFolder(saved);
      assert '/' in resp.image by {
        assert resp.image[|UploadFolderPath|] == '/';
      }
      assert folder.entries[saved] == File(encode(data).value);
    } else {
      resp := Redirected(r.error);
    }
  }

  /** POST `/generate` with the corrected generate_qr: the rendered name is
      the saved image's name, and serving it sends the new image. */
  method GeneratePageCorrected(folder: UploadFolder, form: Option<string>,
                               encode: string -> Option<Bytes>, draw: nat -> string, failing: set<string>,
                               saveFails: bool)
    returns (resp: GenerateResponse)
    requires folder.Valid()
    requires forall k: nat :: IsCandidate(draw(k))
    modifies folder
    ensures folder.Valid() && folder.present == old(folder.present)
    ensures var image := encode(GenerateInput(form));
      var e := GenerateFailure(old(folder.present), old(AllTaken(folder, draw)), image.Some?, saveFails);
      && (resp.Redirected? <==> e.Some?)
      && (resp.Redirected? ==> resp.error == e.value)
      && (resp.Redirected? && resp.error != SaveFailed ==> folder.entries == old(folder.entries))
      && (resp.Redirected? && resp.error == SaveFailed ==> folder.entries == Cleared(old(folder.entries), failing))
      && (resp.Rendered? ==> IsQrName(resp.image))
      && (resp.Rendered? ==> folder.entries == Cleared(old(folder.entries), failing)[resp.image := File(image.value)])
      && (resp.Rendered? ==> ServeImage(folder, resp.image, false) == Sent(image.value, false))
  {
    var data := GenerateInput(form);
    var r := GenerateQrCorrected(folder, data, UploadFolderPath, encode, draw, failing, saveFails);
    if r.Ok? {
      resp := Rendered(r.value);
      assert folder.entries[r.value] == File(encode(data).value);
    } else {
      resp := Redirected(r.error);
    }
  }

  // ---------------------------------------------------------------------
  // scan_page
  // ---------------------------------------------------------------------

  /** The `barcode_file` part of the request: the client's filename and bytes. */
  datatype Upload = Upload(filename: string, content: Bytes)

  datatype Flash = ScanSuccess | CouldNotDetect

  /** The rendered scan page, or the exception that escapes the handler when
      the `finally` clause's `os.remove` raises. */
  datatype ScanResponse = ScanRendered(scannedText: Option<string>, flash: Option<Flash>) | ServerError

  /** `scanned_text and scanned_text != "Error processing image."`: the
      condition for the success flash. */
  predicate ScanSucceeded(scanned: Option<string>): (ok: bool)
    ensures ok ==> scanned.Some? && |scanned.value| > 0
    ensures scanned == Some(ScanErrorText) ==> !ok
    ensures scanned.Some? && scanned.value != ScanErrorText ==> (ok <==> |scanned.value| > 0)
  {
    scanned.Some? && scanned.value != "" && scanned.value != ScanErrorText
  }

  /** `file.save(path)` succeeds when the folder exists, accepts the write
      (`saveFails` stands for no permission or a full disk) and the name is
      free or names a file or a link; it raises on a directory, and a special
      file is taken to make it fail as well. */
  predicate SaveSucceeds(present: bool, entries: map<string, Entry>, name: string, saveFails: bool): (ok: bool)
    ensures ok ==> present && !saveFails
    ensures ok ==> name !in entries || (Removable(entries[name]) && !entries[name].Directory?)
    ensures present && !saveFails && name !in entries ==> ok
  {
    !saveFails && present && (name !in entries || entries[name].File? || entries[name].Link?)
  }

  /** `scanned_text` after the try/except: the error text when saving or
      decoding raised, otherwise what scan_qr_from_image returned. */
  function ScannedText(saved: bool, call: DecodeCall): (scanned: Option<string>)
    ensures !saved || call.Raised? ==> scanned == Some(ScanErrorText)
    ensures scanned.None? <==> saved && call.Decoded? && call.data == ""
    ensures scanned.Some? && scanned.value != ScanErrorText ==> saved && call.Decoded? && scanned.value == call.data
  {
    if !saved then Some(ScanErrorText)
    else match call
      case Raised => Some(ScanErrorText)
      case Decoded(data) => ScanQrFromImage(data)
  }

  /** The flash follows the decoder alone: success exactly when the file was
      saved and a non-empty payload other than the error text was decoded. A
      payload equal to the error text is reported as not detected. */
  lemma ScanClassification(saved: bool, call: DecodeCall)
    ensures ScanSucceeded(ScannedText(saved, call)) <==>
      saved && call.Decoded? && call.data != "" && call.data != ScanErrorText
    ensures !ScanSucceeded(ScannedText(saved, call)) ==>
      ScannedText(saved, call) == None || ScannedText(saved, call) == Some(ScanErrorText)
  {
  }

  /** POST `/scan`. `upload` is None when the request has no `barcode_file`
      part; `failing` are the names whose `os.remove` raises. */
  method ScanPage(folder: UploadFolder, upload: Option<Upload>,
                  decode: Bytes -> DecodeCall, failing: set<string>, saveFails: bool)
    returns (resp: ScanResponse)
    requires folder.Valid()
    modifies folder
    ensures folder.Valid() && folder.present == old(folder.present)
    ensures upload.None? || upload.value.filename == "" ==>
      folder.entries == old(folder.entries) && resp == ScanRendered(None, None)
    ensures upload.Some? && upload.value.filename != "" ==>
      var name := upload.value.filename;
      // nothing but the upload's own name is touched
      && folder.entries - {name} == old(folder.entries) - {name}
      // the handler escapes only when the cleanup's os.remove raises
      && (resp.ServerError? <==>
            old(folder.present) && (name in old(folder.entries) || !saveFails)
            && (name in failing || (name in old(folder.entries) && old(folder.entries)[name].Directory?)))
      // when it escapes, the saved upload, or the entry the save failed on, stays
      && (resp.ServerError? ==> name in folder.entries)
      && (resp.ServerError? && SaveSucceeds(old(folder.present), old(folder.entries), name, saveFails) ==>
            folder.entries[name] == File(upload.value.content))
      && (resp.ServerError? && !SaveSucceeds(old(folder.present), old(folder.entries), name, saveFails) ==>
            folder.entries[name] == old(folder.entries)[name])
      // otherwise the upload does not survive the request
      && (resp.ScanRendered? ==> name !in folder.entries)
      && (resp.ScanRendered? ==>
            var saved := SaveSucceeds(old(folder.present), old(folder.entries), name, saveFails);
            resp.scannedText == ScannedText(saved, decode(upload.value.content))
            && resp.flash == Some(if ScanSucceeded(resp.scannedText) then ScanSuccess else CouldNotDetect))
  {
    if upload.None? || upload.value.filename == "" {
      return ScanRendered(None, None);
    }
    var name := upload.value.filename;
    var scannedText: Option<string> := None;
    // try: file.save(path); scanned_text = scan_qr_from_image(path)
    if SaveSucceeds(folder.present, folder.entries, name, saveFails) {
      folder.entries := folder.entries[name := File(upload.value.content)];
      match decode(upload.value.content)
      case Raised =>
        scannedText := Some(ScanErrorText);
      case Decoded(data) =>
        scannedText := ScanQrFromImage(data);
    } else {
      scannedText := Some(ScanErrorText);
    }
    // finally: if os.path.exists(path): os.remove(path)
    if folder.present && name in folder.entries {
      if name in failing || folder.entries[name].Directory? {
        return ServerError;
      }
      folder.entries := folder.entries - {name};
    }
    var flash := if ScanSucceeded(scannedText) then ScanSuccess else CouldNotDetect;
    resp := ScanRendered(scannedText, Some(flash));
  }

  // ---------------------------------------------------------------------
  // The image name generate_qr returns, as written
  // ---------------------------------------------------------------------

  /** With the upload folder's POSIX path, `path.split('\\')[-1]` keeps the
      whole path: the name handed to the page is not the name of the file in
      the folder, so serving it finds nothing. */
  lemma AsWrittenImageNameKeepsFolder(name: string)
    requires IsQrName(name)
    ensures ImageNameAsWritten(PathJoin(UploadFolderPath, name)) == UploadFolderPath + "/" + name
    ensures ImageNameAsWritten(PathJoin(UploadFolderPath, name)) != name
  {
    var path := PathJoin(UploadFolderPath, name);
    assert name[0] == "qr-"[0];
    assert !StartsWith(name, "/");
    assert path == UploadFolderPath + "/" + name;
    assert '\\' !in UploadFolderPath + "/";
    assert '\\' !in path;
  }

  /** With the base name instead, the name handed to the page is the name the
      image was saved under. */
  lemma ImageNameIsSavedName(directory: string, name: string)
    requires IsQrName(name)
    ensures ImageName(PathJoin(directory, name)) == name
  {
    ImageNameOfJoin(directory, name);
  }
}
