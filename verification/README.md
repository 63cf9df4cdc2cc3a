# QR reader and generator: a Dafny model

This project models the logic of a small Flask web application that generates
and scans QR codes, together with the browser script of its pages.

- **Upload folder (`utils.py`, `app.py`).** The application keeps one shared
  upload folder, `/tmp/uploads`. It is modelled as the class
  `Folder.UploadFolder`: a flag for whether the folder exists, and a map from
  entry name to entry kind (a file with its bytes, a directory, a symbolic
  link, or some other special file).
  - `generate_qr` picks a fresh `qr-*.png` path with `tempfile.mktemp`, wipes
    the folder with `clear_folder_contents`, saves the new image, and returns
    `path.split('\\')[-1]`. With the POSIX folder path that is the whole path,
    which the page then cannot serve (see Findings). The operations model this
    behaviour as written; the corrected variants sit beside them.
  - The `/scan` handler saves an upload under the client's filename, decodes
    it, and removes it again in a `finally` clause.
  - `/image/<name>` serves a file from the folder.
- **Decoder result (`utils.py`).** An empty decode is mapped to `None`.
- **Theme and result buttons (`static/script.js`).**
  - The theme choice (light, dark or auto) is kept in a `theme` cookie and
    read back by splitting `document.cookie`.
  - `setTheme` applies the choice to the page and its icons.
  - `toggleTheme` cycles light → dark → auto.
  - The copy and open-link buttons are guarded by checks on the scanned text.

Foreign code becomes parameters of the model:
- The QR encoder is `encode: string -> Option<Bytes>`. `None` stands for the
  data-overflow error `qr.make` raises before anything is written.
- The decoder (`cv2.imread` plus `detectAndDecode`) is
  `decode: Bytes -> DecodeCall`. `Raised` stands for an exception.
- The random name sequence of `tempfile` is `draw: nat -> string`.
- The set of names whose deletion raises is `failing: set<string>`.
- Whether the folder, when it exists, refuses to take a saved file (no write
  permission, a full disk) is `saveFails: bool`. It applies to `img.save` in
  `generate_qr` and to `file.save` in the `/scan` handler.
- The system colour-scheme preference is `prefersDark: bool`.
- The cookie expiry date is an opaque string, `expiry`.

Module layout:
- `wrappers.dfy` (Option, Result);
- `text.dfy` (split, join, trim, the text before or after a separator, as the
  two languages define them);
- `folder.dfy` (the upload folder and the specification of a cleared folder);
- `utils.dfy` (`utils.py`);
- `app.dfy` (`app.py`);
- `script.dfy` (`static/script.js`).

`generate_page` has no emptiness check: it passes the stripped field, possibly
`""`, straight to `generate_qr`, and so does the model (`App.GeneratePage`).

## Model

| member | source | states |
|---|---|---|
| Utils.ScanQrFromImage | utils.py:16-21 | the result is None exactly when the decoder yields empty data, otherwise the data unchanged |
| Utils.MkTemp | utils.py:26 | returns the first of the TMP_MAX drawn `prefix + 8 chars + suffix` candidates that is not taken in the folder, and None exactly when all of them are taken |
| Utils.CandidateIsQrName | utils.py:26 | every candidate mktemp draws is a `qr-…png` name holding no path separator |
| Utils.PathJoin | utils.py:26 | `os.path.join` ends with the name, puts a `/` right before it when it is longer, and lies under the directory for a relative name |
| Utils.ImageNameAsWritten | utils.py:39 | `path.split('\\')[-1]` is the suffix of the path after its last `\`: it holds no `\`, the character before it is `\`, and it is the whole path when the path has no `\` |
| Utils.ImageName | utils.py:39 | the corrected name is the suffix after the last `/`, holding no `/` |
| Utils.ImageNameOfJoin | utils.py:26-39 | the base name of `os.path.join(directory, name)` is `name` for any name without `/` |
| Folder.Cleared | utils.py:53-67 | after a clear, an entry remains exactly when it is not removable (neither file, link nor directory) or its deletion fails, with its kind unchanged |
| Folder.ClearedIdempotent | utils.py:42-67 | clearing a cleared folder again changes nothing |
| Utils.ClearFolderContents | utils.py:42-67 | a missing folder is left alone with no attempt; otherwise every removable entry listed at entry gets exactly one deletion attempt, an attempt fails exactly for the failing names, the folder itself stays, and the result is the cleared folder |
| Utils.GenerateFailure | utils.py:26-38 | generate_qr succeeds exactly when the folder exists, some drawn name is free, the data fits a QR code and the save is accepted; otherwise mktemp's FileExistsError wins over `qr.make`'s DataOverflowError, which wins over `img.save`'s error for a missing or refusing folder |
| Utils.SaveImage | utils.py:26-38 | each error happens exactly under its condition; mktemp's and `qr.make`'s leave the folder unchanged, while a failing save leaves it wiped (the cleared entries, no image); on success the path is the directory joined with a fresh `qr-…png` name, and the folder holds exactly the cleared entries plus the new image under that name |
| Utils.GenerateQr | utils.py:24-39 | as written: the same errors and the same folder as SaveImage, and the returned text is `path.split('\\')[-1]`; for a directory without `\` that is the whole path, not the saved name |
| Utils.GenerateQrCorrected | utils.py:24-39 | with the base name returned: the same errors and folder, and the returned name is the fresh `qr-…png` name the image is saved under |
| App.ServeImage | app.py:36-44 | a name is served exactly when it holds no `/` (the `<name>` route segment) and names a regular file in the folder, with that file's bytes, as an attachment exactly for POST |
| App.GenerateInput | app.py:56 | the text handed to generate_qr is "" for a missing field, and otherwise the field with only whitespace removed at both ends and none left at its ends; it may be empty |
| App.GeneratePage | app.py:52-69 | the stripped form text, or "" when the field is missing, is encoded; any error redirects with that error, with the folder unchanged for mktemp's and `qr.make`'s errors and already wiped (no image) for a failing save; otherwise the folder holds the cleared entries plus the new image, and the page renders the name `/tmp/uploads/<saved name>`, which serve_image answers with 404 while the saved name itself would be served |
| App.GeneratePageCorrected | app.py:52-69 | with the corrected generate_qr: the same errors and folders, and the rendered name is the saved `qr-…png` name, which serve_image sends |
| App.SaveSucceeds | app.py:88 | `file.save` succeeds only in an existing folder that accepts the write, and never over a directory; a free name in such a folder always saves |
| App.ScannedText | app.py:86-97 | the scanned text is the error text when the save or the decoder raised, None exactly when the save succeeded and the decoder returned empty data, and otherwise the decoded data itself |
| App.ScanSucceeded | app.py:104 | the success condition needs a non-empty scanned text, never holds for the error text, and holds for any other text exactly when it is non-empty |
| App.ScanClassification | app.py:91-107 | the success flash is shown exactly when the file was saved and the decoder returned a non-empty text other than the error text; otherwise the scanned text is None or the error text |
| App.ScanPage | app.py:74-109 | with no file part or an empty filename nothing changes and the page renders with no scanned text and no flash; otherwise only the upload's own name is touched, the upload does not survive a rendered response, the scanned text and flash follow the save and decode outcome (a save refused by the folder gives the error text), and the handler escapes exactly when the cleanup finds an entry under the name and its removal raises; it then leaves that entry, the saved upload or the entry the save failed on, in the folder |
| App.AsWrittenImageNameKeepsFolder | utils.py:39 | for a name saved in `/tmp/uploads`, the name returned as written is the whole path `/tmp/uploads/<name>`, not the saved name |
| App.ImageNameIsSavedName | utils.py:39 | the corrected name is the name the image was saved under |
| Text.Split | static/script.js:189 | `split` returns at least one part, the parts joined with the separator give the text back, and no part contains the separator |
| Text.SplitJoin | static/script.js:189 | splitting a joined list gives the list back when no part holds the separator's first character |
| Text.TrimSpec | app.py:56 | `strip()`/`trim()` returns the slice left after removing only whitespace at both ends, and that slice neither starts nor ends with whitespace |
| Text.TrimIdempotent | static/script.js:72 | trimming twice is trimming once |
| Script.FindRow | static/script.js:189 | `find(row => row.startsWith(prefix))` returns the first row with the prefix, or nothing when no row has it |
| Script.LookupTheme | static/script.js:189 | the cookie lookup never yields the empty string |
| Script.ThemeRowValue | static/script.js:189 | for a `theme=` row, `split('=')[1]` is the text between the first and second `=` |
| Script.LookupThemeSpec | static/script.js:207 | the lookup reads the first `; `-separated row starting with `theme=` and yields the text between its first and second `=`, or 'auto' when there is no such row or that text is empty |
| Script.LookupRoundTrip | static/script.js:189 | a non-empty value without `=` or `;` is read back from `"theme=" + v` |
| Script.CookieString | static/script.js:148 | setCookie's string starts with `name=value` (the empty value for a missing one) and ends with `; path=/; SameSite=Lax`, with nothing between them when `days` is 0 |
| Script.CookieAttributes | static/script.js:142-148 | what follows `name=value` always starts with `"; "` |
| Script.CookieStringPair | static/script.js:148 | the name-value pair of the cookie string, the text before its first `;`, is `name=value` whatever the expiry |
| Script.LookupOfCookieString | static/script.js:141-148 | the lookup run on the cookie string itself yields the value back |
| Script.SetValue | static/script.js:148 | storing a cookie sets that name's value and keeps every other name's value |
| Script.StorePair | static/script.js:148 | storing a name-value pair keeps the cookie store well formed |
| Script.StoreCookie | static/script.js:148 | assigning `document.cookie` keeps the cookie store well formed |
| Script.ChoiceOfJar | static/script.js:207 | the lookup on the page's cookies yields the text before the first `=` of the `theme` cookie's value, or 'auto' |
| Script.StoredThemeIsRead | static/script.js:171 | after `setCookie('theme', v, 30)` the lookup yields `v`, for any non-empty `v` without `=` or `;` |
| Script.NextChoice | static/script.js:193-199 | the toggle always lands on one of the three choices and always changes the choice |
| Script.ToggleCycle | static/script.js:193-199 | the cycle runs light → dark → auto → light, so three toggles return each choice to itself, and any other choice goes to light |
| Script.AppliedTheme | static/script.js:152-167 | the applied theme is never 'auto': it is the choice itself, except that 'auto' becomes the system preference, dark exactly when the system prefers dark |
| Script.IconFor | static/script.js:174-182 | light shows `light_mode`, dark `dark_mode`, anything else `contrast` |
| Script.IconTextAsWritten | static/script.js:174-182 | the icon text as written agrees with the corrected icon for every name Object.prototype does not define, and is no icon name for the names it does |
| Script.InheritedKeyIsNotAnIcon | static/script.js:182 | for the choice `toString` the text as written is the built-in function's source text, where the corrected icon is `contrast` |
| Script.CopyAllowed | static/script.js:61 | the copy guard needs a non-empty text, rejects the placeholder, and accepts any other text exactly when it is non-empty |
| Script.OpenLinkAllowed | static/script.js:72-73 | the open-link guard holds exactly when the text from its first non-whitespace character on starts with `http` |
| Script.GuardsAgree | static/script.js:61-73 | the placeholder "No result yet" enables neither button, and every text the open-link button accepts the copy button accepts too |
| Script.OpenLinkIgnoresPadding | static/script.js:72-73 | surrounding whitespace never changes the open-link decision |
| Script.Page.SetCookie | static/script.js:141-149 | the cookie store becomes the old one with the cookie string stored; nothing else changes |
| Script.Page.SetTheme | static/script.js:157-184 | the `data-bs-theme` attribute becomes the applied theme, the choice is stored in the `theme` cookie for 30 days, and every active icon gets the icon text as written |
| Script.Page.ToggleTheme | static/script.js:187-202 | the cookie store gets the next choice in the cycle, which the lookup then reads, and the attribute and every icon show that choice's theme and icon |
| Script.Page.InitTheme | static/script.js:205-210 | on load the stored choice is written back unchanged, the attribute shows its applied theme, and every icon gets its icon text as written |

## Left out

- `live_qr_scan` (utils.py:70-119) is not modelled. It is camera I/O and a GUI loop.
- QR encoding and decoding internals (`qrcode` parameters, `cv2.imread`, `detectAndDecode`) are not modelled. They are the `encode` and `decode` parameters.
- The console output of `clear_folder_contents` is not modelled.
- Exceptions from `os.listdir` itself are not modelled: the listing is taken to succeed on an existing folder.
- Utils.SaveImage: a save that fails after writing part of the image (a full disk) is modelled as writing nothing; the code may leave a partial file under the new name. The same holds for `file.save` in `App.ScanPage`, whose cleanup would then remove that file.
- Directory contents are not modelled. A directory is one entry that `shutil.rmtree` removes as a whole or fails on.
- App.ServeImage: a symbolic link is answered with 404. `send_from_directory` follows links and serves a link to a regular file, but the folder model records no link targets.
- App.ScanPage: saving over a symbolic link is modelled as replacing the link with a regular file, which the cleanup then removes. The code writes through the link into its target, possibly another entry of the folder, and the cleanup removes only the link. A dangling link whose target's directory is missing fails to save in the code but is accepted by `App.SaveSucceeds`. The folder model records no link targets.
- Entries that are neither file, link nor directory (FIFOs, sockets, devices) are skipped by the deletion loop and kept. `App.SaveSucceeds` takes saving over one to fail.
- Flask plumbing is not modelled: routing, `render_template`, `flash` storage, `send_from_directory` internals and the 1 MB body cap. The GET forms of `/generate` and `/scan` and the `/` page only render templates.
- Startup creation of the upload folder and the secret key are not modelled. They are environment I/O.
- The authentication and history routes (app.py:112-173) are not modelled. They are placeholders.
- Path semantics of client filenames are not modelled. The upload's filename is a flat name in the folder, so `..` and `/` are not interpreted.
- Concurrency between requests is not modelled, for example one generate's wipe deleting another request's file.
- DOM and browser wiring is not modelled: tab switching (static/script.js:9-47), event listener registration, `navigator.clipboard`, `window.open` and alerts. The dropdown's click handler is `Script.Page.SetTheme` with the clicked value.
- `matchMedia` is the `prefersDark` parameter. The `Date`-based expiry is the opaque `expiry` string.
- The commented-out AJAX functions (static/script.js:91-132) are not modelled.
- The unused `currentTheme` read in `toggleTheme` (static/script.js:188) has no effect and is not modelled.
- `setTheme(null)` from an element without `data-bs-theme-value` is not modelled. The model passes strings only.
- The browser cookie store keeps only name and value, per section 5.2 of RFC 6265. Expiry, path and SameSite attributes are not kept. Whitespace trimming around names and values is not modelled. Cookies the server sets are cookies already in the store.
- Script.LookupTheme: its own contract states only that the result is non-empty. What it reads is stated by `Script.LookupThemeSpec`, `Script.ChoiceOfJar` and the round-trip lemmas.

## Findings

| source | as written | input that shows it | evidently intended | confidence | as-written member | corrected member |
|---|---|---|---|---|---|---|
| utils.py:39 | `path.split('\\')[-1]` splits on the Windows separator | on POSIX the path `/tmp/uploads/qr-abc12345.png` has no `\`, so the whole path is returned and passed to the page as the image name | the base name `qr-abc12345.png`, the name the image was saved under and can be served by | high; not executed | Utils.ImageNameAsWritten, Utils.GenerateQr, App.GeneratePage, App.AsWrittenImageNameKeepsFolder | Utils.ImageName, Utils.GenerateQrCorrected, App.GeneratePageCorrected, App.ImageNameIsSavedName |
| static/script.js:182 | `iconMap[theme] \|\| iconMap['auto']` on a plain object literal | a `theme=toString` cookie: `iconMap['toString']` is the inherited function, which is truthy and whose source text becomes the icon | 'contrast' for every choice other than light and dark | medium; not executed | Script.IconTextAsWritten, Script.Page.SetTheme, Script.InheritedKeyIsNotAnIcon | Script.IconFor |
