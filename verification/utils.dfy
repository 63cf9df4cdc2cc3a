/** utils.py: decoding an uploaded image, generating a QR image into the
    upload folder, and wiping that folder. The QR encoder (`qrcode`) and the
    decoder (`cv2.QRCodeDetector`) are parameters: `encode` gives the PNG bytes
    for a text, or None when `qr.make(fit=True)` raises because the text does
    not fit any QR version; `decode` says what the detector makes of the bytes
    of a saved file. */
module Utils {
  import opened Wrappers
  import opened Text
  import opened Folder

  /** What `detector.detectAndDecode(cv2.imread(path))` does with a file's
      bytes: it returns the decoded text (empty when no code is found), or
      raises, as it does when `cv2.imread` could not read an image. */
  datatype DecodeCall = Decoded(data: string) | Raised

  /** `scan_qr_from_image`: an empty decode becomes None, anything else is
      returned unchanged. */
  function ScanQrFromImage(data: string): (r: Option<string>)
    ensures r.None? <==> data == ""
    ensures r.Some? ==> r.value == data
  {
    if data != "" then Some(data) else None
  }

  // ---------------------------------------------------------------------
  // Naming: tempfile.mktemp(prefix="qr-", suffix=".png", dir=directory)
  // ---------------------------------------------------------------------

  /** `tempfile.TMP_MAX`, which is `os.TMP_MAX` on Linux. */
  const TMP_MAX: nat := 238328

  /** The characters of tempfile's random candidate names. */
  const CandidateChars := "abcdefghijklmnopqrstuvwxyz0123456789_"

  /** A random name as tempfile draws it: eight characters of the alphabet. */
  predicate IsCandidate(t: string) {
    |t| == 8 && forall ch :: ch in t ==> ch in CandidateChars
  }

  /** The `k`-th name `mktemp` tries. */
  function Candidate(prefix: string, suffix: string, draw: nat -> string, k: nat): string {
    prefix + draw(k) + suffix
  }

  /** `_exists(path)` in mktemp: an entry of that name, of any kind, exists. */
  predicate Taken(folder: UploadFolder, name: string)
    reads folder
  {
    folder.present && name in folder.entries
  }

  /** A name generate_qr can produce: `qr-` + eight random characters +
      `.png`, holding no path separator of either platform. */
  predicate IsQrName(name: string) {
    StartsWith(name, "qr-") && EndsWith(name, ".png") && '/' !in name && '\\' !in name
  }

  lemma CandidateIsQrName(t: string)
    requires IsCandidate(t)
    ensures IsQrName("qr-" + t + ".png")
  {
    var n := "qr-" + t + ".png";
    assert n[..3] == "qr-";
    assert n[|n| - 4..] == ".png";
    forall i | 0 <= i < |n| ensures n[i] != '/' && n[i] != '\\' {
      if 3 <= i < 11 {
        assert n[i] == t[i - 3];
        assert n[i] in CandidateChars;
      }
    }
  }

  /** `tempfile.mktemp`: try up to TMP_MAX random names and return the first
      that does not exist in the folder (as a name within it; the path is
      `PathJoin(directory, name)`), or None where mktemp raises
      FileExistsError. */
  method MkTemp(folder: UploadFolder, prefix: string, suffix: string, draw: nat -> string)
    returns (r: Option<string>)
    ensures r.Some? ==> !Taken(folder, r.value)
    ensures r.Some? ==> exists k: nat :: k < TMP_MAX && r.value == Candidate(prefix, suffix, draw, k)
                                     && (forall j: nat :: j < k ==> Taken(folder, Candidate(prefix, suffix, draw, j)))
    ensures r.None? <==> forall k: nat :: k < TMP_MAX ==> Taken(folder, Candidate(prefix, suffix, draw, k))
  {
    for k := 0 to TMP_MAX
      invariant forall j: nat :: j < k ==> Taken(folder, Candidate(prefix, suffix, draw, j))
    {
      var name := Candidate(prefix, suffix, draw, k);
      if !(folder.present && name in folder.entries) {
        return Some(name);
      }
    }
    return None;
  }

  /** `os.path.join(directory, name)` on POSIX. */
  function PathJoin(directory: string, name: string): (path: string)
    ensures EndsWith(path, name)
    ensures |path| > |name| ==> path[|path| - |name| - 1] == '/'
    ensures directory != "" && !StartsWith(name, "/") ==> StartsWith(path, directory) && |path| > |name|
  {
    if StartsWith(name, "/") || directory == [] then name
    else if directory[|directory| - 1] == '/' then directory + name
    else directory + "/" + name
  }

  /** The image name generate_qr returns as written, `path.split('\\')[-1]`:
      the text after the last backslash, or the whole path when it has none. */
  function ImageNameAsWritten(path: string): (name: string)
    ensures |name| <= |path| && name == path[|path| - |name|..] && '\\' !in name
    ensures |name| < |path| ==> path[|path| - |name| - 1] == '\\'
    ensures '\\' !in path ==> name == path
  {
    LastPart(path, '\\')
  }

  /** The image name as evidently intended, `os.path.basename(path)`: the
      text after the last `/`. */
  function ImageName(path: string): (name: string)
    ensures |name| <= |path| && name == path[|path| - |name|..] && '/' !in name
    ensures |name| < |path| ==> path[|path| - |name| - 1] == '/'
  {
    LastPart(path, '/')
  }

  /** The base name of a path built by PathJoin is the name joined on. */
  lemma ImageNameOfJoin(directory: string, name: string)
    requires '/' !in name
    ensures ImageName(PathJoin(directory, name)) == name
  {
    var path := PathJoin(directory, name);
    if |path| > |name| {
      var pre := path[..|path| - |name| - 1];
      assert path == pre + ['/'] + name;
      LastPartAfter(pre, '/', name);
    }
  }

  // ---------------------------------------------------------------------
  // clear_folder_contents
  // ---------------------------------------------------------------------

  /** One deletion attempt of the loop: the entry's name, and whether its
      deletion went through (otherwise "Failed to delete" is printed). */
  datatype Attempt = Attempt(name: string, removed: bool)

  function AttemptedNames(log: seq<Attempt>): set<string> {
    set i | 0 <= i < |log| :: log[i].name
  }

  lemma AttemptedNamesAppend(log: seq<Attempt>, a: Attempt)
    ensures AttemptedNames(log + [a]) == AttemptedNames(log) + {a.name}
  {
    var l := log + [a];
    assert l[|log|].name == a.name;
    forall x | x in AttemptedNames(log) ensures x in AttemptedNames(l) {
      var i :| 0 <= i < |log| && log[i].name == x;
      assert l[i].name == x;
    }
  }

  predicate DistinctNames(log: seq<Attempt>) {
    forall i, j :: 0 <= i < j < |log| ==> log[i].name != log[j].name
  }

  /** `clear_folder_contents(folder)`. The entries whose deletion raises are
      `failing`. Returns the deletion attempts in the order of the listing. */
  method ClearFolderContents(folder: UploadFolder, failing: set<string>) returns (log: seq<Attempt>)
    requires folder.Valid()
    modifies folder
    ensures folder.Valid() && folder.present == old(folder.present)
    ensures !folder.present ==> folder.entries == old(folder.entries) && log == []
    ensures folder.present ==> folder.entries == Cleared(old(folder.entries), failing)
    ensures folder.present ==> AttemptedNames(log) == RemovableNames(old(folder.entries))
    ensures DistinctNames(log)
    ensures forall i :: 0 <= i < |log| ==> (log[i].removed <==> log[i].name !in failing)
  {
    log := [];
    if !folder.present {
      return;
    }
    ghost var listed := folder.entries;
    var pending := folder.entries.Keys;  // os.listdir, taken once
    while pending != {}
      invariant pending <= listed.Keys
      invariant folder.present
      invariant folder.entries == Survivors(listed, failing, pending)
      invariant AttemptedNames(log) == RemovableNames(listed) - pending
      invariant DistinctNames(log)
      invariant forall i :: 0 <= i < |log| ==> log[i].name !in pending
      invariant forall i :: 0 <= i < |log| ==> (log[i].removed <==> log[i].name !in failing)
      decreases pending
    {
      var name :| name in pending;
      SurvivorsStep(listed, failing, pending, name);
      pending := pending - {name};
      var entry := folder.entries[name];
      if entry.File? || entry.Link? || entry.Directory? {
        var removed := name !in failing;
        if removed {
          folder.entries := folder.entries - {name};
        }
        AttemptedNamesAppend(log, Attempt(name, removed));
        log := log + [Attempt(name, removed)];
      }
    }
    assert Survivors(listed, failing, {}) == Cleared(listed, failing);
  }

  // ---------------------------------------------------------------------
  // generate_qr
  // ---------------------------------------------------------------------

  /** The exceptions generate_qr lets escape: FileExistsError from mktemp,
      DataOverflowError from `qr.make`, and the error of `img.save` when the
      folder does not exist or refuses the write. */
  datatype GenerateError = NoUsableName | DataOverflow | SaveFailed

  /** Every name mktemp would try is taken. */
  ghost predicate AllTaken(folder: UploadFolder, draw: nat -> string)
    reads folder
  {
    forall k: nat :: k < TMP_MAX ==> Taken(folder, Candidate("qr-", ".png", draw, k))
  }

  /** The exception generate_qr lets escape, or None when the image is
      saved: mktemp's FileExistsError comes first, then the DataOverflowError
      of `qr.make`, then the error of `img.save` in a folder that does not
      exist or that refuses the write (`saveFails`: no permission, a full
      disk). */
  function GenerateFailure(present: bool, allTaken: bool, fits: bool, saveFails: bool): (e: Option<GenerateError>)
    ensures e.None? <==> present && !allTaken && fits && !saveFails
    ensures allTaken ==> e == Some(NoUsableName)
    ensures !allTaken && !fits ==> e == Some(DataOverflow)
    ensures !allTaken && fits && (!present || saveFails) ==> e == Some(SaveFailed)
  {
    if allTaken then Some(NoUsableName)
    else if !fits then Some(DataOverflow)
    else if !present || saveFails then Some(SaveFailed)
    else None
  }

  /** generate_qr up to the save: pick a fresh `qr-*.png` path in
      `directory`, encode, wipe the whole folder, then save the image there.
      `saved` is the name the image is saved under in the folder. */
  method SaveImage(folder: UploadFolder, text: string, directory: string,
                   encode: string -> Option<Bytes>, draw: nat -> string, failing: set<string>,
                   saveFails: bool)
    returns (r: Result<string, GenerateError>, ghost saved: string)
    requires folder.Valid()
    requires forall k: nat :: IsCandidate(draw(k))
    modifies folder
    ensures folder.Valid() && folder.present == old(folder.present)
    ensures var e := GenerateFailure(old(folder.present), old(AllTaken(folder, draw)), encode(text).Some?, saveFails);
      (r.Err? <==> e.Some?) && (r.Err? ==> r.error == e.value)
    // mktemp and qr.make fail before the wipe; a failing save comes after it
    ensures r.Err? && r.error != SaveFailed ==> folder.entries == old(folder.entries)
    ensures r.Err? && r.error == SaveFailed ==> folder.entries == Cleared(old(folder.entries), failing)
    ensures r.Ok? ==> IsQrName(saved) && r.value == PathJoin(directory, saved)
    ensures r.Ok? ==> saved !in Cleared(old(folder.entries), failing)
    ensures r.Ok? ==> folder.entries == Cleared(old(folder.entries), failing)[saved := File(encode(text).value)]
  {
    saved := "";
    assert !folder.present ==> !Taken(folder, Candidate("qr-", ".png", draw, 0));
    var chosen := MkTemp(folder, "qr-", ".png", draw);
    if chosen.None? {
      assert Taken(folder, Candidate("qr-", ".png", draw, 0));
      return Err(NoUsableName), saved;
    }
    var name := chosen.value;
    ghost var k: nat :| k < TMP_MAX && name == Candidate("qr-", ".png", draw, k);
    CandidateIsQrName(draw(k));
    var path := PathJoin(directory, name);
    var image := encode(text);
    if image.None? {
      return Err(DataOverflow), saved;
    }
    var _ := ClearFolderContents(folder, failing);
    if !folder.present || saveFails {
      return Err(SaveFailed), saved;
    }
    folder.entries := folder.entries[name := File(image.value)];
    r, saved := Ok(path), name;
  }

  /** `generate_qr(text_data, directory)` as written: save the image, then
      return `path.split('\\')[-1]`. With a POSIX directory holding no `\`
      that is the whole path, not the name the image is saved under. */
  method GenerateQr(folder: UploadFolder, text: string, directory: string,
                    encode: string -> Option<Bytes>, draw: nat -> string, failing: set<string>,
                   saveFails: bool)
    returns (r: Result<string, GenerateError>, ghost saved: string)
    requires folder.Valid()
    requires forall k: nat :: IsCandidate(draw(k))
    modifies folder
    ensures folder.Valid() && folder.present == old(folder.present)
    ensures var e := GenerateFailure(old(folder.present), old(AllTaken(folder, draw)), encode(text).Some?, saveFails);
      (r.Err? <==> e.Some?) && (r.Err? ==> r.error == e.value)
    // mktemp and qr.make fail before the wipe; a failing save comes after it
    ensures r.Err? && r.error != SaveFailed ==> folder.entries == old(folder.entries)
    ensures r.Err? && r.error == SaveFailed ==> folder.entries == Cleared(old(folder.entries), failing)
    ensures r.Ok? ==> IsQrName(saved) && r.value == ImageNameAsWritten(PathJoin(directory, saved))
    ensures r.Ok? && directory != "" && '\\' !in directory ==>
      r.value == PathJoin(directory, saved) && r.value != saved
    ensures r.Ok? ==> saved !in Cleared(old(folder.entries), failing)
    ensures r.Ok? ==> folder.entries == Cleared(old(folder.entries), failing)[saved := File(encode(text).value)]
  {
    var path;
    path, saved := SaveImage(folder, text, directory, encode, draw, failing, saveFails);
    if path.Err? {
      return Err(path.error), saved;
    }
    assert !StartsWith(saved, "/") by {
      assert saved[0] in saved;
    }
    r := Ok(ImageNameAsWritten(path.value));
  }

  /** generate_qr with the base name returned instead, the name the image is
      saved under. */
  method GenerateQrCorrected(folder: UploadFolder, text: string, directory: string,
                             encode: string -> Option<Bytes>, draw: nat -> string, failing: set<string>,
                   saveFails: bool)
    returns (r: Result<string, GenerateError>)
    requires folder.Valid()
    requires forall k: nat :: IsCandidate(draw(k))
    modifies folder
    ensures folder.Valid() && folder.present == old(folder.present)
    ensures var e := GenerateFailure(old(folder.present), old(AllTaken(folder, draw)), encode(text).Some?, saveFails);
      (r.Err? <==> e.Some?) && (r.Err? ==> r.error == e.value)
    // mktemp and qr.make fail before the wipe; a failing save comes after it
    ensures r.Err? && r.error != SaveFailed ==> folder.entries == old(folder.entries)
    ensures r.Err? && r.error == SaveFailed ==> folder.entries == Cleared(old(folder.entries), failing)
    ensures r.Ok? ==> IsQrName(r.value)
    ensures r.Ok? ==> r.value !in Cleared(old(folder.entries), failing)
    ensures r.Ok? ==> folder.entries == Cleared(old(folder.entries), failing)[r.value := File(encode(text).value)]
  {
    var path;
    ghost var saved;
    path, saved := SaveImage(folder, text, directory, encode, draw, failing, saveFails);
    if path.Err? {
      return Err(path.error);
    }
    ImageNameOfJoin(directory, saved);
    r := Ok(ImageName(path.value));
  }
}
